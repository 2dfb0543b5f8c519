/**
 The scan of an H.264 byte stream for an instantaneous decoder refresh picture: NAL unit type 5 of Table 7-1 of ITU-T
 H.264, in the byte stream format of its Annex B.
 */
module AnnexB {
  type byte = bv8

  /** The low five bits of the first byte of a NAL unit give its type. */
  predicate IsIdrHeader(header: byte) {
    header & 0x1F == 5
  }

  predicate StartsCode(data: seq<byte>, i: nat) {
    i + 2 < |data| && data[i] == 0 && data[i + 1] == 0 && data[i + 2] == 1
  }

  predicate IdrAt(data: seq<byte>, i: nat) {
    i + 3 < |data| && StartsCode(data, i) && IsIdrHeader(data[i + 3])
  }

  ghost predicate HasIdr(data: seq<byte>) {
    exists i: nat :: IdrAt(data, i)
  }

  /** The skips over three and four byte start codes neither miss nor invent a picture. */
  method IsIdrFromNalBytes(data: seq<byte>) returns (idr: bool)
    ensures idr <==> HasIdr(data)
  {
    var pos := 0;
    while pos + 3 < |data|
      invariant forall i: nat :: i < pos ==> !IdrAt(data, i)
      decreases |data| - pos
    {
      if data[pos] == 0 && data[pos + 1] == 0 {
        var startCodeLen := if data[pos + 2] == 1 then 3 else 0;
        if startCodeLen == 0 && pos + 4 <= |data| && data[pos + 2] == 0 && data[pos + 3] == 1 {
          startCodeLen := 4;
        }
        if startCodeLen > 0 {
          var nalStart := pos + startCodeLen;
          if nalStart < |data| && IsIdrHeader(data[nalStart]) {
            assert IdrAt(data, nalStart - 3);
            return true;
          }
          pos := nalStart;
        } else {
          pos := pos + 1;
        }
      } else {
        pos := pos + 1;
      }
    }
    return false;
  }

  // ---------------------------------------------------------------------------------------------
  // Streams of NAL units
  // ---------------------------------------------------------------------------------------------

  /** A NAL unit behind its start code, with any number of further zero bytes in front. */
  datatype Nal = Nal(zeros: nat, bytes: seq<byte>)

  /** Section 7.4.1 of ITU-T H.264: no start code inside a unit, and no zero byte at its end. */
  ghost predicate WellFormed(nal: Nal) {
    && nal.bytes != []
    && nal.bytes[|nal.bytes| - 1] != 0
    && forall i: nat :: !StartsCode(nal.bytes, i)
  }

  function Zeros(n: nat): (s: seq<byte>)
    ensures |s| == n && forall i :: 0 <= i < n ==> s[i] == 0
  {
    seq(n, _ => 0)
  }

  function ByteStream(nals: seq<Nal>): seq<byte> {
    if nals == [] then []
    else Zeros(nals[0].zeros + 2) + [1] + nals[0].bytes + ByteStream(nals[1..])
  }

  /** The only start code found from the front of a unit up to its end is its own. */
  lemma OwnCodeOnly(nal: Nal, rest: seq<byte>, i: nat)
    requires WellFormed(nal)
    ensures var data := Zeros(nal.zeros + 2) + [1] + nal.bytes + rest;
            IdrAt(data, i) <==>
            || (i == nal.zeros && IsIdrHeader(nal.bytes[0]))
            || (i >= nal.zeros + 3 + |nal.bytes| && IdrAt(rest, i - (nal.zeros + 3 + |nal.bytes|)))
  {
    var start := nal.zeros + 3;
    var data := Zeros(nal.zeros + 2) + [1] + nal.bytes + rest;
    assert data[start - 1] == 1 && data[start + |nal.bytes| - 1] == nal.bytes[|nal.bytes| - 1];
    if start <= i && i + 2 < start + |nal.bytes| {
      assert !StartsCode(nal.bytes, i - start);
    }
  }

  ghost predicate HasIdrUnit(nals: seq<Nal>) {
    exists nal :: nal in nals && nal.bytes != [] && IsIdrHeader(nal.bytes[0])
  }

  /** A picture is found in the first unit or in the rest of the stream. */
  lemma FirstOrRest(nal: Nal, rest: seq<byte>)
    requires WellFormed(nal)
    ensures var data := Zeros(nal.zeros + 2) + [1] + nal.bytes + rest;
            HasIdr(data) <==> IsIdrHeader(nal.bytes[0]) || HasIdr(rest)
  {
    var data := Zeros(nal.zeros + 2) + [1] + nal.bytes + rest;
    var length := nal.zeros + 3 + |nal.bytes|;
    if HasIdr(data) {
      var i: nat :| IdrAt(data, i);
      OwnCodeOnly(nal, rest, i);
    }
    if IsIdrHeader(nal.bytes[0]) {
      OwnCodeOnly(nal, rest, nal.zeros);
    }
    if HasIdr(rest) {
      var i: nat :| IdrAt(rest, i);
      OwnCodeOnly(nal, rest, i + length);
    }
  }

  /** For every byte stream made of well-formed units, the scan answers whether one of the units is of type 5. */
  lemma {:induction false} ScanFindsIdrUnits(nals: seq<Nal>)
    requires forall nal :: nal in nals ==> WellFormed(nal)
    ensures HasIdr(ByteStream(nals)) <==> HasIdrUnit(nals)
  {
    if nals == [] {
      assert forall i: nat :: !IdrAt(ByteStream(nals), i);
    } else {
      ScanFindsIdrUnits(nals[1..]);
      FirstOrRest(nals[0], ByteStream(nals[1..]));
      assert nals == [nals[0]] + nals[1..];
    }
  }
}
