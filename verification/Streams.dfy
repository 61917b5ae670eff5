/** Byte streams. The first read past the end of an input stream yields the byte 255, because the stream
    only learns of its end then; the next one is an error. */
module Streams {
  import opened Common

  type byte = b: nat | b < 256

  datatype Source = Source(data: seq<byte>, good: bool)

  function NextByte(s: Source): Option<(byte, Source)> {
    if !s.good then None
    else if s.data == [] then Some((255, Source([], false)))
    else Some((s.data[0], Source(s.data[1..], true)))
  }

  class InStream {
    const data: seq<byte>
    var pos: nat
    var good: bool

    ghost predicate Valid()
      reads this
    {
      pos <= |data|
    }

    ghost function Rest(): Source
      reads this
      requires Valid()
    {
      Source(data[pos..], good)
    }

    constructor (bytes: seq<byte>)
      ensures Valid() && Rest() == Source(bytes, true)
    {
      data, pos, good := bytes, 0, true;
    }

    /** None stands for the error that is raised. */
    method GetB() returns (b: Option<byte>)
      requires Valid()
      modifies this
      ensures Valid()
      ensures match NextByte(old(Rest()))
        case None => b.None? && Rest() == old(Rest())
        case Some((c, s)) => b == Some(c) && Rest() == s
    {
      if !good {
        b := None;
      } else if pos == |data| {
        good := false;
        b := Some(255);
      } else {
        b := Some(data[pos]);
        pos := pos + 1;
      }
    }
  }

  class OutStream {
    var data: seq<byte>

    constructor ()
      ensures data == []
    {
      data := [];
    }

    method PutB(b: byte)
      modifies this
      ensures data == old(data) + [b]
    {
      data := data + [b];
    }
  }
}
