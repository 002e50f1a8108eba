/** The Rio functions of src/csapp.cpp over a scripted file descriptor. */
module Rio {
  import opened Text

  /** How the kernel serves one read or write call: at most `extra + 1` bytes, no byte at all
      (writes only), an interrupted call, or another error. */
  datatype Service = Partial(extra: nat) | Nothing | Interrupt | Failure

  function Min(a: int, b: int): int {
    if a < b then a else b
  }

  /** Of the calls that were made, exactly the last failed, or none. */
  predicate Made(before: seq<Service>, after: seq<Service>, failed: bool) {
    if before == [] || after == before then after == before && !failed
    else if before[0] == Failure then failed && after == before[1..]
    else Made(before[1..], after, failed)
  }

  lemma {:induction false} MadeShortens(before: seq<Service>, after: seq<Service>, failed: bool)
    requires Made(before, after, failed)
    ensures |after| <= |before|
  {
    if before != [] && after != before && before[0] != Failure {
      MadeShortens(before[1..], after, failed);
    }
  }

  lemma {:induction false} MoreCalls(a: seq<Service>, b: seq<Service>, c: seq<Service>, failed: bool)
    requires Made(a, b, false) && Made(b, c, failed)
    ensures Made(a, c, failed)
  {
    if a != [] && b != a {
      MoreCalls(a[1..], b, c, failed);
      MadeShortens(a[1..], c, failed);
    }
  }

  lemma NextCall(a: seq<Service>, b: seq<Service>)
    requires Made(a, b, false)
    ensures b != [] ==> Made(a, b[1..], b[0] == Failure)
  {
    if b != [] {
      MoreCalls(a, b, b[1..], b[0] == Failure);
    }
  }

  /** The last of the calls that were made failed or did nothing, and none before it failed. */
  predicate GaveUp(before: seq<Service>, after: seq<Service>) {
    && before != []
    && ((before[0] in {Failure, Nothing} && after == before[1..])
        || (before[0] != Failure && GaveUp(before[1..], after)))
  }

  lemma {:induction false} LastCall(a: seq<Service>, b: seq<Service>, c: seq<Service>)
    requires Made(a, b, false) && c == if b == [] then [] else b[1..]
    ensures b != [] && b[0] in {Failure, Nothing} ==> GaveUp(a, c)
  {
    if a != [] && b != a {
      LastCall(a[1..], b, c);
    }
  }

  /** The byte after those that are stored. */
  method StoreByte(buf: array<char>, at: nat, c: char, ghost got: string)
    requires at < buf.Length && got == buf[..at]
    modifies buf
    ensures buf[..at + 1] == got + [c]
    ensures forall i | at < i < buf.Length :: buf[i] == old(buf[i])
  {
    buf[at] := c;
  }

  /** An open file descriptor: the bytes still to be read before end of file, the bytes written,
      and the script of coming calls. A call past the end of its script is served in full. */
  class Descriptor {
    var input: string
    var output: string
    var readScript: seq<Service>
    var writeScript: seq<Service>
    var eintr: bool // errno == EINTR

    constructor (input: string, readScript: seq<Service>, writeScript: seq<Service>)
      ensures this.input == input && this.output == "" && this.readScript == readScript
              && this.writeScript == writeScript
    {
      this.input := input;
      this.output := "";
      this.readScript := readScript;
      this.writeScript := writeScript;
      this.eintr := false;
    }

    /** read(fd, buf + off, n) */
    method Read(buf: array<char>, off: nat, n: nat, ghost before: seq<Service>) returns (r: int)
      requires 0 < n && off + n <= buf.Length && Made(before, readScript, false)
      modifies this`input, this`readScript, this`eintr, buf
      ensures readScript == if old(readScript) == [] then [] else old(readScript)[1..]
      ensures -1 <= r <= n
      ensures r >= 0 ==> r <= |old(input)| && input == old(input)[r..] && (r == 0 ==> old(input) == "")
      ensures r >= 0 ==> buf[..] == old(buf[..off]) + old(input)[..r] + old(buf[off + r..])
      ensures r < 0 ==> input == old(input) && buf[..] == old(buf[..])
      ensures r < 0 ==>
              old(readScript) != [] && if eintr then old(readScript)[0] == Interrupt else old(readScript)[0] == Failure
      ensures Made(before, readScript, r < 0 && !eintr)
    {
      var limit := n;
      NextCall(before, readScript);
      if readScript != [] {
        var service := readScript[0];
        readScript := readScript[1..];
        if service == Interrupt || service == Failure {
          eintr := service == Interrupt;
          return -1;
        }
        limit := if service.Partial? then Min(n, service.extra + 1) else n;
      }
      r := Min(limit, |input|);
      forall i | 0 <= i < r {
        buf[off + i] := input[i];
      }
      input := input[r..];
    }

    /** write(fd, data, n) for the n bytes of `data` */
    method Write(data: string) returns (r: int)
      requires data != ""
      modifies this`output, this`writeScript, this`eintr
      ensures writeScript == if old(writeScript) == [] then [] else old(writeScript)[1..]
      ensures -1 <= r <= |data|
      ensures r >= 0 ==> output == old(output) + data[..r] && eintr == old(eintr)
      ensures r < 0 ==> output == old(output)
      ensures r <= 0 ==> old(writeScript) != []
      ensures r == 0 ==> old(writeScript)[0] == Nothing
      ensures r < 0 ==> if eintr then old(writeScript)[0] == Interrupt else old(writeScript)[0] == Failure
      ensures Made(old(writeScript), writeScript, r < 0 && !eintr)
    {
      var limit := |data|;
      if writeScript != [] {
        var service := writeScript[0];
        writeScript := writeScript[1..];
        match service
        case Interrupt => eintr := true; return -1;
        case Failure => eintr := false; return -1;
        case Nothing => limit := 0;
        case Partial(extra) => limit := Min(|data|, extra + 1);
      }
      output := output + data[..limit];
      return limit;
    }
  }

  /** A sequence in two pieces, before another. */
  lemma Divide<T>(whole: seq<T>, a: seq<T>, b: seq<T>, more: seq<T>)
    requires |whole| == |a| + |b|
    requires forall i | 0 <= i < |a| :: a[i] == whole[i]
    requires forall i | 0 <= i < |b| :: b[i] == whole[|a| + i]
    ensures whole + more == a + (b + more)
  {
    assert whole == a + b;
  }

  lemma Append<T>(got: seq<T>, more: seq<T>, before: seq<T>, rest: seq<T>)
    requires before == more + rest
    ensures got + before == (got + more) + rest
  {
  }

  /** k bytes of the input follow those read before. */
  lemma BytesAt<T>(buf: seq<T>, got: seq<T>, rest: seq<T>, at: nat, k: nat)
    requires at + k <= |buf| && k <= |rest| && got == buf[..at]
    requires forall i | 0 <= i < k :: buf[at + i] == rest[i]
    ensures got + rest[..k] == buf[..at + k] && got + rest == (got + rest[..k]) + rest[k..]
  {
  }

  /** rio_readn: the first min(n, available) bytes, whatever the sizes of the partial reads and
      however often they are interrupted; -1 only after another error. */
  method RioReadn(fd: Descriptor, buf: array<char>, n: nat) returns (r: int)
    requires n <= buf.Length
    modifies fd`input, fd`readScript, fd`eintr, buf
    ensures buf[n..] == old(buf[n..])
    ensures r < 0 ==> r == -1 && Failure in old(fd.readScript)
    ensures r >= 0 ==> r == Min(n, |old(fd.input)|)
    ensures var k := |old(fd.input)| - |fd.input|;
            0 <= k <= n && (r >= 0 ==> r == k) && old(fd.input) == buf[..k] + fd.input
    ensures forall e | e in fd.readScript :: e in old(fd.readScript)
    ensures Made(old(fd.readScript), fd.readScript, r < 0)
  {
    var nleft, bufp := n, 0;
    ghost var got := "";
    while nleft > 0
      invariant bufp == n - nleft && 0 <= nleft && got == buf[..bufp]
      invariant old(fd.input) == got + fd.input
      invariant forall i | n <= i < buf.Length :: buf[i] == old(buf[i])
      invariant Made(old(fd.readScript), fd.readScript, false)
      invariant forall e | e in fd.readScript :: e in old(fd.readScript)
      decreases nleft, |fd.readScript|
    {
      ghost var rest := fd.input;
      var nread := fd.Read(buf, bufp, nleft, old(fd.readScript));
      BytesAt(buf[..], got, rest, bufp, if nread > 0 then nread else 0);
      if nread < 0 {
        if fd.eintr {
          nread := 0;
        } else {
          return -1;
        }
      } else if nread == 0 {
        break;
      }
      got := got + rest[..nread];
      nleft := nleft - nread;
      bufp := bufp + nread;
    }
    return n - nleft;
  }

  /** rio_writen: the given bytes, once and in order; -1 only after an error or a write of
      nothing, and then a proper prefix has been written. */
  method RioWriten(fd: Descriptor, data: string) returns (r: int)
    modifies fd`output, fd`writeScript, fd`eintr
    ensures r >= 0 ==> r == |data| && fd.output == old(fd.output) + data
    ensures r < 0 ==> r == -1 && (Failure in old(fd.writeScript) || Nothing in old(fd.writeScript))
    ensures r < 0 ==> exists k: nat | k < |data| :: fd.output == old(fd.output) + data[..k]
    ensures if r < 0 then GaveUp(old(fd.writeScript), fd.writeScript)
            else Made(old(fd.writeScript), fd.writeScript, false)
  {
    var nleft, bufp := |data|, 0;
    while nleft > 0
      invariant bufp == |data| - nleft && 0 <= nleft
      invariant fd.output == old(fd.output) + data[..bufp]
      invariant forall e | e in fd.writeScript :: e in old(fd.writeScript)
      invariant Made(old(fd.writeScript), fd.writeScript, false)
      decreases nleft, |fd.writeScript|
    {
      ghost var script := fd.writeScript;
      var nwritten := fd.Write(data[bufp..]);
      MoreCalls(old(fd.writeScript), script, fd.writeScript, nwritten < 0 && !fd.eintr);
      LastCall(old(fd.writeScript), script, fd.writeScript);
      if nwritten <= 0 {
        if fd.eintr {
          nwritten := 0;
        } else {
          return -1;
        }
      }
      assert data[..bufp] + data[bufp..][..nwritten] == data[..bufp + nwritten];
      nleft := nleft - nwritten;
      bufp := bufp + nwritten;
    }
    return |data|;
  }

  const RIO_BUFSIZE := 8192

  /** rio_t: a descriptor with a read buffer. */
  class RioBuffer {
    const fd: Descriptor
    const buf: array<char>
    var bufptr: nat
    var cnt: int
    ghost var rest: string // the stream as the callers see it: buffered bytes, then unread ones

    ghost predicate Valid()
      reads this, fd, buf
    {
      && buf.Length == RIO_BUFSIZE
      && (cnt > 0 ==> bufptr + cnt <= buf.Length)
      && rest == (if cnt > 0 then buf[bufptr..bufptr + cnt] else "") + fd.input
    }

    /** rio_readinitb */
    constructor (fd: Descriptor)
      ensures Valid() && fresh(buf) && this.fd == fd && rest == fd.input
    {
      this.fd := fd;
      this.buf := new char[RIO_BUFSIZE];
      this.cnt := 0;
      this.bufptr := 0;
      this.rest := fd.input;
    }

    /** rio_read: at least one byte, unless the stream is at its end. */
    method Read(usrbuf: array<char>, off: nat, n: nat) returns (r: int)
      requires Valid() && usrbuf != buf
      requires 0 < n <= INT_MAX && off + n <= usrbuf.Length
      modifies this, fd`input, fd`readScript, fd`eintr, buf, usrbuf
      ensures Valid()
      ensures -1 <= r <= n
      ensures r >= 0 ==> old(rest) == usrbuf[off..off + r] + rest
      ensures r < 0 ==> rest == old(rest) && Failure in old(fd.readScript)
      ensures r == 0 ==> rest == ""
      ensures forall i | 0 <= i < usrbuf.Length && !(off <= i < off + r) :: usrbuf[i] == old(usrbuf[i])
      ensures forall e | e in fd.readScript :: e in old(fd.readScript)
      ensures Made(old(fd.readScript), fd.readScript, r < 0)
    {
      Refill();
      if cnt < 0 {
        return -1;
      }
      if cnt == 0 {
        return 0;
      }
      r := if cnt < n then cnt else n;
      TakeBytes(usrbuf, off, r);
    }

    /** The end of rio_read: it moves c bytes from the buffer to the caller. */
    method TakeBytes(usrbuf: array<char>, off: nat, c: nat)
      requires Valid() && usrbuf != buf && 0 < c <= cnt && off + c <= usrbuf.Length
      modifies this, usrbuf
      ensures Valid() && old(rest) == usrbuf[off..off + c] + rest
      ensures forall i | 0 <= i < usrbuf.Length && !(off <= i < off + c) :: usrbuf[i] == old(usrbuf[i])
    {
      forall i | 0 <= i < c {
        usrbuf[off + i] := buf[bufptr + i];
      }
      ghost var whole := buf[bufptr..bufptr + cnt];
      ghost var taken, left := usrbuf[off..off + c], buf[bufptr + c..bufptr + cnt];
      Divide(whole, taken, left, fd.input);
      bufptr := bufptr + c;
      cnt := cnt - c;
      rest := left + fd.input;
    }

    /** The body of the refill loop: one read into the empty buffer. */
    method FillOnce(ghost before: seq<Service>)
      requires Valid() && cnt <= 0 && Made(before, fd.readScript, false)
      modifies this, fd`input, fd`readScript, fd`eintr, buf
      ensures Valid() && rest == old(rest)
      ensures cnt == 0 ==> rest == ""
      ensures Made(before, fd.readScript, cnt < 0 && !fd.eintr)
      ensures cnt < 0 ==> |fd.readScript| < |old(fd.readScript)| && (fd.eintr || Failure in old(fd.readScript))
      ensures forall e | e in fd.readScript :: e in old(fd.readScript)
    {
      ghost var stream := fd.input;
      assert rest == stream;
      cnt := fd.Read(buf, 0, buf.Length, before);
      if cnt > 0 {
        bufptr := 0;
        assert buf[0..cnt] == stream[..cnt];
        assert stream == stream[..cnt] + fd.input;
      }
    }

    /** The refill loop of rio_read: it ends with bytes in the buffer, at end of file, or on an error. */
    method Refill()
      requires Valid()
      modifies this, fd`input, fd`readScript, fd`eintr, buf
      ensures Valid() && rest == old(rest)
      ensures cnt == 0 ==> rest == ""
      ensures cnt < 0 ==> Failure in old(fd.readScript)
      ensures forall e | e in fd.readScript :: e in old(fd.readScript)
      ensures Made(old(fd.readScript), fd.readScript, cnt < 0)
    {
      while cnt <= 0
        invariant Valid() && rest == old(rest)
        invariant forall e | e in fd.readScript :: e in old(fd.readScript)
        invariant Made(old(fd.readScript), fd.readScript, false)
        decreases cnt <= 0, |fd.readScript|
      {
        FillOnce(old(fd.readScript));
        if cnt == 0 || (cnt < 0 && !fd.eintr) {
          return;
        }
      }
    }

    /** rio_readnb: like rio_readn, on the buffered stream. */
    method Readnb(usrbuf: array<char>, n: nat) returns (r: int)
      requires Valid() && usrbuf != buf
      requires n <= usrbuf.Length && n <= INT_MAX
      modifies this, fd`input, fd`readScript, fd`eintr, buf, usrbuf
      ensures Valid()
      ensures r < 0 ==> r == -1 && Failure in old(fd.readScript)
      ensures r >= 0 ==> r == Min(n, |old(rest)|)
      ensures var k := |old(rest)| - |rest|;
              0 <= k <= n && (r >= 0 ==> r == k) && old(rest) == usrbuf[..k] + rest
      ensures usrbuf[n..] == old(usrbuf[n..])
      ensures forall e | e in fd.readScript :: e in old(fd.readScript)
      ensures Made(old(fd.readScript), fd.readScript, r < 0)
    {
      var nleft, bufp := n, 0;
      ghost var got := "";
      while nleft > 0
        invariant Valid()
        invariant bufp == n - nleft && 0 <= nleft && got == usrbuf[..bufp]
        invariant old(rest) == got + rest
        invariant forall i | n <= i < usrbuf.Length :: usrbuf[i] == old(usrbuf[i])
        invariant forall e | e in fd.readScript :: e in old(fd.readScript)
        invariant Made(old(fd.readScript), fd.readScript, false)
        decreases nleft
      {
        ghost var before, script := rest, fd.readScript;
        var nread := Read(usrbuf, bufp, nleft);
        MoreCalls(old(fd.readScript), script, fd.readScript, nread < 0);
        assert usrbuf[..bufp] == got;
        if nread < 0 {
          return -1;
        } else if nread == 0 {
          break;
        }
        Append(got, usrbuf[bufp..bufp + nread], before, rest);
        got := got + usrbuf[bufp..bufp + nread];
        nleft := nleft - nread;
        bufp := bufp + nread;
      }
      return n - nleft;
    }

    /** The loop of rio_readlineb: it stores a line and counts its bytes, or gives up with -1. */
    method CollectLine(usrbuf: array<char>, maxlen: nat) returns (stored: int, ghost got: string)
      requires Valid() && usrbuf != buf
      requires 1 <= maxlen <= usrbuf.Length && maxlen <= INT_MAX
      modifies this, fd`input, fd`readScript, fd`eintr, buf, usrbuf
      ensures Valid()
      ensures old(rest) == got + rest && |got| < maxlen && usrbuf[..|got|] == got
      ensures if stored < 0 then stored == -1 && Failure in old(fd.readScript)
              else stored == |got| && got == Line(old(rest), maxlen - 1)
      ensures got == "" && maxlen > 1 && stored == 0 ==> rest == ""
      ensures forall i | |got| <= i < usrbuf.Length :: usrbuf[i] == old(usrbuf[i])
      ensures Made(old(fd.readScript), fd.readScript, stored < 0)
    {
      var n, bufp := 1, 0;
      got := "";
      while n < maxlen
        invariant Valid() && 1 <= n <= maxlen && bufp == n - 1
        invariant old(rest) == got + rest
        invariant got == usrbuf[..bufp]
        invariant forall i | 0 <= i < |got| :: got[i] != '\n'
        invariant forall i | bufp <= i < usrbuf.Length :: usrbuf[i] == old(usrbuf[i])
        invariant forall e | e in fd.readScript :: e in old(fd.readScript)
        invariant Made(old(fd.readScript), fd.readScript, false)
      {
        var rc, c := ReadByte(old(fd.readScript));
        if rc == 1 {
          StoreByte(usrbuf, bufp, c, got);
          bufp := bufp + 1;
          AppendFirst(got, c, rest);
          got := got + [c];
          if c == '\n' {
            n := n + 1;
            break;
          }
        } else if rc == 0 {
          break;
        } else {
          return -1, got;
        }
        n := n + 1;
      }
      LineEnds(got, rest, maxlen - 1);
      return n - 1, got;
    }

    /** rio_readlineb: one line of at most maxlen - 1 bytes, with its newline, and a NUL after it;
        at end of file the result is 0 and nothing is stored. */
    method Readlineb(usrbuf: array<char>, maxlen: nat) returns (r: int)
      requires Valid() && usrbuf != buf
      requires 1 <= maxlen <= usrbuf.Length && maxlen <= INT_MAX
      modifies this, fd`input, fd`readScript, fd`eintr, buf, usrbuf
      ensures Valid()
      ensures r < 0 ==> r == -1 && Failure in old(fd.readScript)
      ensures r >= 0 ==> r < maxlen && usrbuf[..r] == Line(old(rest), maxlen - 1)
      ensures var k := |old(rest)| - |rest|;
              0 <= k < maxlen && (r >= 0 ==> r == k) && old(rest) == usrbuf[..k] + rest
      ensures r > 0 || (r == 0 && maxlen == 1) ==> usrbuf[r] == '\0'
      ensures r == 0 && maxlen > 1 ==> old(rest) == "" && usrbuf[..] == old(usrbuf[..])
      ensures usrbuf[maxlen..] == old(usrbuf[maxlen..])
      ensures Made(old(fd.readScript), fd.readScript, r < 0)
    {
      var stored, got := CollectLine(usrbuf, maxlen);
      if stored < 0 {
        return -1;
      }
      if stored == 0 && maxlen > 1 {
        return 0;
      }
      usrbuf[stored] := '\0';
      assert usrbuf[..stored] == got;
      return stored;
    }

    /** rio_read of a single byte. */
    method ReadByte(ghost before: seq<Service>) returns (rc: int, c: char)
      requires Valid() && Made(before, fd.readScript, false)
      modifies this, fd`input, fd`readScript, fd`eintr, buf
      ensures Valid() && -1 <= rc <= 1
      ensures rc == 1 ==> old(rest) == [c] + rest
      ensures rc == 0 ==> old(rest) == "" && rest == ""
      ensures rc < 0 ==> rest == old(rest) && Failure in old(fd.readScript)
      ensures forall e | e in fd.readScript :: e in old(fd.readScript)
      ensures Made(before, fd.readScript, rc < 0)
    {
      ghost var script := fd.readScript;
      var cell := new char[1];
      rc := Read(cell, 0, 1);
      MoreCalls(before, script, fd.readScript, rc < 0);
      c := cell[0];
      assert rc == 1 ==> cell[0..1] == [c];
    }
  }

  /** The first line of a stream: up to and with the first newline, but at most `limit` bytes. */
  function Line(s: string, limit: nat): string {
    if limit == 0 || s == "" then ""
    else if s[0] == '\n' then "\n"
    else [s[0]] + Line(s[1..], limit - 1)
  }

  predicate EndsLine(l: string) {
    l != "" && l[|l| - 1] == '\n'
  }

  /** A line ends with the first newline, at end of file or at the limit, and nowhere else. */
  lemma {:induction false} LineStops(l: string, more: string, limit: nat)
    requires |l| <= limit
    requires forall i | 0 <= i < |l| - 1 :: l[i] != '\n'
    ensures Line(l + more, limit) == l <==> EndsLine(l) || more == "" || |l| == limit
  {
    var s := l + more;
    if l == "" {
      assert s == more;
    } else if l[0] != '\n' {
      assert s[1..] == l[1..] + more;
      LineStops(l[1..], more, limit - 1);
      assert l == [l[0]] + l[1..];
      assert EndsLine(l) == EndsLine(l[1..]);
    }
  }

  lemma LineEnds(l: string, more: string, limit: nat)
    requires |l| <= limit
    requires forall i | 0 <= i < |l| - 1 :: l[i] != '\n'
    requires EndsLine(l) || more == "" || |l| == limit
    ensures Line(l + more, limit) == l
  {
    LineStops(l, more, limit);
  }
}
