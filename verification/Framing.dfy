/** The framing of src/io.cpp on byte strings: four digits, payload, newline. */
module Framing {
  import opened Wrappers
  import opened Text

  const MAX_FRAMED := 9999

  /** std::setw(width) with std::setfill('0'). */
  function PadLeft(s: string, width: nat): (r: string)
    decreases width - |s|
  {
    if |s| >= width then s else PadLeft("0" + s, width)
  }

  /** make_length_prefix. */
  function LengthPrefix(n: nat): Result<string> {
    if n > MAX_FRAMED then Err(IOException) else Ok(PadLeft(Digits(n), 4))
  }

  /** parse_length_prefix. */
  function ParseLengthPrefix(prefix: string): (r: Result<nat>)
    requires |prefix| == 4
    ensures r.Ok? ==> 1 <= r.value
  {
    if !AllDigits(prefix) then Err(IOException)
    else
      var n := Value(prefix);
      if n <= 0 then Err(IOException) else Ok(n)
  }

  /** The bytes that IO::send writes. */
  function Frame(s: string): Result<string> {
    var prefix :- LengthPrefix(|s| + 1);
    Ok(prefix + s + "\n")
  }

  datatype Received = Received(result: Result<string>, rest: string)

  /** IO::receive on a stream that ends after `stream`: the outcome, and what it leaves unread. */
  function Receive(stream: string): Received {
    if |stream| < 4 then Received(Err(IOException), "")
    else
      var n := ParseLengthPrefix(stream[..4]);
      if n.Err? then Received(Err(IOException), stream[4..])
      else if |stream| - 4 < n.value then Received(Err(IOException), "")
      else
        var body, rest := stream[4..4 + n.value], stream[4 + n.value..];
        if body[n.value - 1] != '\n' then Received(Err(IOException), rest)
        else Received(Ok(body[..n.value - 1]), rest)
  }

  /** IO::receive would wait for more bytes if the stream were still open. */
  predicate Blocked(stream: string) {
    |stream| < 4 || (ParseLengthPrefix(stream[..4]).Ok? && |stream| - 4 < ParseLengthPrefix(stream[..4]).value)
  }

  lemma {:induction false} PadLeftValue(s: string, width: nat)
    requires AllDigits(s)
    ensures AllDigits(PadLeft(s, width)) && Value(PadLeft(s, width)) == Value(s)
    ensures |PadLeft(s, width)| == if |s| < width then width else |s|
    decreases width - |s|
  {
    if |s| < width {
      ValueLeadingZero(s);
      assert ['0'] + s == "0" + s;
      PadLeftValue("0" + s, width);
    }
  }

  lemma LengthPrefixParses(n: nat)
    requires 1 <= n <= MAX_FRAMED
    ensures |LengthPrefix(n).value| == 4
    ensures ParseLengthPrefix(LengthPrefix(n).value) == Ok(n)
  {
    DigitsMonotone(n, MAX_FRAMED);
    ValueOfDigits(n);
    PadLeftValue(Digits(n), 4);
  }

  /** A frame prefix has no second spelling: four digits are the padded text of their value. */
  lemma PrefixIsCanonical(p: string)
    requires |p| == 4 && AllDigits(p)
    ensures Value(p) <= MAX_FRAMED && PadLeft(Digits(Value(p)), 4) == p
  {
    FourDigits(p);
    ValueBound(p);
  }

  lemma {:induction false} ValueBound(p: string)
    requires AllDigits(p) && |p| <= 4
    ensures Value(p) < [1, 10, 100, 1000, 10000][|p|]
  {
    if p != [] {
      ValueBound(p[..|p| - 1]);
    }
  }

  lemma {:induction false} FourDigits(p: string)
    requires 1 <= |p| <= 4 && AllDigits(p)
    ensures PadLeft(Digits(Value(p)), |p|) == p
  {
    if p[0] != '0' {
      DigitsOfValue(p);
    } else if |p| == 1 {
      assert p == "0" && Value(p) == 0;
    } else {
      var q := p[1..];
      assert p == ['0'] + q;
      ValueLeadingZero(q);
      FourDigits(q);
      PadOneMore(Digits(Value(p)), |q|);
      assert "0" + q == p;
    }
  }

  lemma {:induction false} PadOneMore(s: string, width: nat)
    requires |PadLeft(s, width)| == width
    ensures |s| <= width && PadLeft(s, width + 1) == "0" + PadLeft(s, width)
    decreases width - |s|
  {
    if |s| < width {
      PadOneMore("0" + s, width);
    }
  }

  /** Sending succeeds exactly for payloads of at most 9998 bytes, and the receiver gets the
      payload back and stops at the end of the frame, whatever follows it. */
  lemma FrameRoundTrip(s: string, more: string)
    ensures Frame(s).Ok? <==> |s| <= MAX_FRAMED - 1
    ensures Frame(s).Ok? ==> |Frame(s).value| == |s| + 5 && !Blocked(Frame(s).value + more)
    ensures Frame(s).Ok? ==> Receive(Frame(s).value + more) == Received(Ok(s), more)
  {
    if |s| <= MAX_FRAMED - 1 {
      var n := |s| + 1;
      LengthPrefixParses(n);
      var prefix := LengthPrefix(n).value;
      var stream := Frame(s).value + more;
      assert stream[..4] == prefix;
      assert stream[4..4 + n] == s + "\n";
      assert (s + "\n")[..n - 1] == s;
      assert stream[4 + n..] == more;
    }
  }

  /** Receive accepts nothing but frames: what it reads is the frame of what it returns. */
  lemma ReceiveAcceptsFrames(stream: string, s: string, rest: string)
    ensures Receive(stream) == Received(Ok(s), rest) <==> Frame(s).Ok? && stream == Frame(s).value + rest
  {
    if Receive(stream) == Received(Ok(s), rest) {
      var p := stream[..4];
      PrefixIsCanonical(p);
      var n := Value(p);
      var body := stream[4..4 + n];
      assert body == s + "\n";
      assert stream == p + body + rest;
    }
    FrameRoundTrip(s, rest);
  }

  /** f is the frame of s: four digits that say how long the rest is, the payload, a newline. */
  ghost predicate FrameText(f: string, s: string) {
    && |f| == 4 + |s| + 1
    && AllDigits(f[..4]) && Value(f[..4]) == |s| + 1
    && f[4..4 + |s|] == s && f[4 + |s|] == '\n'
  }

  /** Sending writes exactly that frame, and fails if there is none. */
  lemma FrameExactly(s: string, f: string)
    ensures Frame(s) == Ok(f) <==> FrameText(f, s)
    ensures Frame(s).Err? ==> Frame(s) == Err(IOException)
    ensures |s| > 9998 ==> !FrameText(f, s)
  {
    if Frame(s) == Ok(f) {
      FrameHasText(s);
    }
    if FrameText(f, s) {
      var p := f[..4];
      PrefixIsCanonical(p);
      assert f == p + s + "\n";
    }
  }

  lemma FrameHasText(s: string)
    requires Frame(s).Ok?
    ensures FrameText(Frame(s).value, s)
  {
    LengthPrefixParses(|s| + 1);
    var p, f := LengthPrefix(|s| + 1).value, Frame(s).value;
    assert f[..4] == p && f[4..4 + |s|] == s;
  }

  /** How many bytes the first four announce. */
  function Announced(stream: string): nat {
    if |stream| >= 4 && AllDigits(stream[..4]) then Value(stream[..4]) else 0
  }

  /** Receiving takes the prefix and what it announces, as far as they are there, also when it fails; it
      waits while they are not all there. */
  lemma ReceiveConsumes(stream: string)
    ensures var n := 4 + Announced(stream);
            && Receive(stream).rest == (if |stream| < n then "" else stream[n..])
            && (Blocked(stream) <==> |stream| < n)
    ensures Receive(stream).result.Err? ==> Receive(stream).result == Err(IOException)
  {
  }

  /** No proper prefix of a frame is accepted as a frame: the receiver waits, and fails at end of file. */
  lemma ProperPrefixBlocks(s: string, k: nat)
    requires Frame(s).Ok? && k < |Frame(s).value|
    ensures Blocked(Frame(s).value[..k])
    ensures Receive(Frame(s).value[..k]).result == Err(IOException)
  {
    FrameRoundTrip(s, "");
    LengthPrefixParses(|s| + 1);
    var f := Frame(s).value;
    if k >= 4 {
      assert f[..k][..4] == LengthPrefix(|s| + 1).value;
    }
  }

  // ----- streams of frames -----

  predicate Frameable(payloads: seq<string>) {
    forall k | 0 <= k < |payloads| :: |payloads[k]| <= MAX_FRAMED - 1
  }

  /** What repeated sends leave on the stream. */
  function FrameAll(payloads: seq<string>): string
    requires Frameable(payloads)
  {
    if payloads == [] then "" else
      FrameRoundTrip(payloads[0], "");
      Frame(payloads[0]).value + FrameAll(payloads[1..])
  }

  /** What repeated receives read off a stream, up to the first failure. */
  function ReceiveAll(stream: string): (seq<string>, string)
    decreases |stream|
  {
    var r := Receive(stream);
    if r.result.Err? || |r.rest| >= |stream| then ([], stream)
    else
      var (more, left) := ReceiveAll(r.rest);
      ([r.result.value] + more, left)
  }

  lemma {:induction false} FrameAllAppend(a: seq<string>, b: seq<string>)
    requires Frameable(a) && Frameable(b)
    ensures Frameable(a + b) && FrameAll(a + b) == FrameAll(a) + FrameAll(b)
  {
    if a == [] {
      assert a + b == b;
    } else {
      FrameAllAppend(a[1..], b);
      assert (a + b)[1..] == a[1..] + b && (a + b)[0] == a[0];
      FrameRoundTrip(a[0], "");
      Regrouped(Frame(a[0]).value, FrameAll(a[1..]), FrameAll(b));
    }
  }

  lemma Regrouped(a: string, b: string, c: string)
    ensures a + (b + c) == a + b + c
  {
  }

  lemma ReceiveAllNext(stream: string, s: string, rest: string)
    requires Receive(stream) == Received(Ok(s), rest) && |rest| < |stream|
    ensures ReceiveAll(stream) == ([s] + ReceiveAll(rest).0, ReceiveAll(rest).1)
  {
  }

  /** Receiving on the concatenation of sends returns the same payloads in order, then stops
      where the last frame ends; an unfinished frame after them is left untouched. */
  lemma {:induction false} FrameStream(payloads: seq<string>, tail: string)
    requires Frameable(payloads)
    requires Receive(tail).result.Err?
    ensures ReceiveAll(FrameAll(payloads) + tail) == (payloads, tail)
  {
    if payloads == [] {
      assert FrameAll(payloads) + tail == tail;
    } else {
      var first, others := payloads[0], payloads[1..];
      var rest := FrameAll(others) + tail;
      FrameRoundTrip(first, rest);
      FrameStream(others, tail);
      ReceiveAllNext(Frame(first).value + rest, first, rest);
      FrameAllFirst(payloads, tail);
      assert payloads == [first] + others;
    }
  }

  lemma FrameAllFirst(payloads: seq<string>, tail: string)
    requires Frameable(payloads) && payloads != []
    ensures Frame(payloads[0]).Ok?
    ensures FrameAll(payloads) + tail == Frame(payloads[0]).value + (FrameAll(payloads[1..]) + tail)
  {
    FrameRoundTrip(payloads[0], "");
    var f, rest := Frame(payloads[0]).value, FrameAll(payloads[1..]);
    assert (f + rest) + tail == f + (rest + tail);
  }

  /** Two streams of frames with the same bytes carry the same payloads. */
  lemma UniquelyDecodable(a: seq<string>, b: seq<string>)
    requires Frameable(a) && Frameable(b)
    ensures FrameAll(a) == FrameAll(b) <==> a == b
  {
    FrameStream(a, "");
    FrameStream(b, "");
    assert FrameAll(a) + "" == FrameAll(a) && FrameAll(b) + "" == FrameAll(b);
  }
}
