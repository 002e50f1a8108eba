/** IO::send and IO::receive of src/io.cpp over a descriptor. */
module IO {
  import opened Wrappers
  import opened Framing
  import opened Rio

  /** IO::send: the whole frame is written, or the caller sees the failure. */
  method Send(s: string, outfd: Descriptor) returns (r: Result<()>)
    modifies outfd`output, outfd`writeScript, outfd`eintr
    ensures r.Ok? ==> Frame(s).Ok? && outfd.output == old(outfd.output) + Frame(s).value
    ensures r.Err? ==> r.error == IOException
    ensures Frame(s).Err? ==> r.Err? && outfd.output == old(outfd.output)
    ensures r.Err? && Frame(s).Ok? ==>
              && (Failure in old(outfd.writeScript) || Nothing in old(outfd.writeScript))
              && exists k: nat | k < |Frame(s).value| :: outfd.output == old(outfd.output) + Frame(s).value[..k]
  {
    var prefix :- LengthPrefix(|s| + 1);
    var framed := prefix + s + "\n";
    var n := RioWriten(outfd, framed);
    if n != |framed| {
      return Err(IOException);
    }
    return Ok(());
  }

  /** IO::receive: what `Framing.Receive` says, whatever the chunks in which the bytes arrive. */
  method ReceiveFrom(infd: Descriptor) returns (r: Result<string>)
    modifies infd`input, infd`readScript, infd`eintr
    ensures r.Ok? || Failure !in old(infd.readScript) ==> Received(r, infd.input) == Receive(old(infd.input))
    ensures r.Err? ==> r.error == IOException
  {
    ghost var stream := infd.input;
    var sizePrefix := new char[4];
    var n := RioReadn(infd, sizePrefix, sizePrefix.Length);
    if n != sizePrefix.Length {
      return Err(IOException);
    }
    assert sizePrefix[..] == sizePrefix[..4] == stream[..4];
    var framedLen :- ParseLengthPrefix(sizePrefix[..]);
    var body := new char[framedLen];
    ghost var afterPrefix := infd.input;
    n := RioReadn(infd, body, body.Length);
    if n != body.Length {
      return Err(IOException);
    }
    assert body[..] == body[..framedLen] == afterPrefix[..framedLen] == stream[4..4 + framedLen];
    assert infd.input == stream[4 + framedLen..];
    if body[body.Length - 1] != '\n' {
      return Err(IOException);
    }
    return Ok(body[..body.Length - 1]);
  }
}
