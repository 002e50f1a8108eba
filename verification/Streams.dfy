/** A connection that carries messages as frames: sent ones that are read, sent ones whose bytes
    are still unread, and perhaps a piece of a frame that broke off. */
module Streams {
  import opened Wrappers
  import opened Framing

  predicate All<M>(p: M -> bool, ms: seq<M>) {
    forall i | 0 <= i < |ms| :: p(ms[i])
  }

  lemma AllAppend<M>(p: M -> bool, a: seq<M>, b: seq<M>)
    requires All(p, a) && All(p, b)
    ensures All(p, a + b)
  {
  }

  predicate AllFit<M>(text: M -> string, ms: seq<M>) {
    forall i | 0 <= i < |ms| :: |text(ms[i])| <= MAX_FRAMED - 1
  }

  function Texts<M>(text: M -> string, ms: seq<M>): (v: seq<string>)
    ensures |v| == |ms|
    ensures forall i | 0 <= i < |v| :: v[i] == text(ms[i])
  {
    if ms == [] then [] else [text(ms[0])] + Texts(text, ms[1..])
  }

  function Frames<M>(text: M -> string, ms: seq<M>): string
    requires AllFit(text, ms)
  {
    FrameAll(Texts(text, ms))
  }

  /** The unread bytes are the frames of the unread messages, and the tail. */
  ghost predicate Carries<M>(text: M -> string, sent: seq<M>, read: nat, bytes: string, tail: string) {
    && AllFit(text, sent)
    && read <= |sent|
    && bytes == Frames(text, sent[read..]) + tail
  }

  lemma CarriesSend<M>(text: M -> string, sent: seq<M>, read: nat, bytes: string, m: M)
    requires Carries(text, sent, read, bytes, "") && |text(m)| <= MAX_FRAMED - 1
    ensures Frame(text(m)).Ok?
    ensures Carries(text, sent + [m], read, bytes + Frame(text(m)).value, "")
  {
    var unread := sent[read..];
    assert (sent + [m])[read..] == unread + [m];
    assert Texts(text, unread + [m]) == Texts(text, unread) + [text(m)];
    FrameAllAppend(Texts(text, unread), [text(m)]);
    FrameAllOne(text(m));
    EmptyTail(Frames(text, unread), Frame(text(m)).value);
  }

  lemma FrameAllOne(s: string)
    requires |s| <= MAX_FRAMED - 1
    ensures Frame(s).Ok? && FrameAll([s]) == Frame(s).value
  {
    FrameRoundTrip(s, "");
    assert FrameAll([s]) == Frame(s).value + "";
  }

  lemma EmptyTail(a: string, b: string)
    ensures (a + b) + "" == (a + "") + b
  {
  }

  lemma CarriesPiece<M>(text: M -> string, sent: seq<M>, read: nat, bytes: string, piece: string)
    requires Carries(text, sent, read, bytes, "")
    ensures Carries(text, sent, read, bytes + piece, piece)
  {
    assert bytes == Frames(text, sent[read..]);
  }

  /** A reader that does not have to wait reads the first unread message, and just that. */
  lemma CarriesRead<M>(text: M -> string, sent: seq<M>, read: nat, bytes: string, tail: string)
    requires Carries(text, sent, read, bytes, tail) && Blocked(tail) && !Blocked(bytes)
    ensures read < |sent|
    ensures Receive(bytes).result == Ok(text(sent[read]))
    ensures Carries(text, sent, read + 1, Receive(bytes).rest, tail)
  {
    var unread := sent[read..];
    if unread == [] {
      NothingUnread(text, sent, read, bytes, tail);
    }
    var m, rest := unread[0], unread[1..];
    assert Texts(text, unread)[1..] == Texts(text, rest);
    FrameAllFirst(Texts(text, unread), tail);
    FrameRoundTrip(text(m), Frames(text, rest) + tail);
    assert sent[read + 1..] == rest;
  }

  /** Where a sent message is unread, its frame is there to be read. */
  lemma CarriesMore<M>(text: M -> string, sent: seq<M>, read: nat, bytes: string, tail: string)
    requires Carries(text, sent, read, bytes, tail) && read < |sent|
    ensures !Blocked(bytes)
  {
    var texts := Texts(text, sent[read..]);
    FrameAllFirst(texts, tail);
    FrameRoundTrip(texts[0], FrameAll(texts[1..]) + tail);
  }

  lemma NothingUnread<M>(text: M -> string, sent: seq<M>, read: nat, bytes: string, tail: string)
    requires Carries(text, sent, read, bytes, tail) && sent[read..] == []
    ensures bytes == tail
  {
  }

  /** All that is unread can be read, up to the tail. */
  lemma CarriesAll<M>(text: M -> string, sent: seq<M>, read: nat, bytes: string, tail: string)
    requires Carries(text, sent, read, bytes, tail) && Blocked(tail)
    ensures ReceiveAll(bytes) == (Texts(text, sent[read..]), tail)
  {
    BlockedFails(tail);
    FrameStream(Texts(text, sent[read..]), tail);
  }

  lemma BlockedFails(tail: string)
    requires Blocked(tail)
    ensures Receive(tail).result.Err?
  {
  }
}
