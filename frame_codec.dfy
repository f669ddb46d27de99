/**
 * Marshalling between a `struct can_frame` and the flat uint32 array the
 * device service exchanges with the framework: [can_id, can_dlc, data[0], ...].
 */
module FrameCodec {
  import opened CanTypes

  /**
   * GET direction: the reading built from a received frame. Its length is
   * can_dlc + 2; the id and the dlc come first, then the meaningful data bytes.
   */
  function Encode(f: CanFrame): (r: seq<uint32>)
    requires f.canDlc <= CanMaxDlen
    ensures |r| == f.canDlc + 2
    ensures r[0] == f.canId && r[1] == f.canDlc
    ensures forall j :: 0 <= j < f.canDlc ==> r[j + 2] == f.data[j]
  {
    [f.canId, f.canDlc as uint32] + seq(f.canDlc, j requires 0 <= j < f.canDlc => f.data[j] as uint32)
  }

  /**
   * What the PUT decoder needs of its input and never checks: an id, a dlc
   * whose low byte is at most 8, and that many further elements.
   */
  predicate WellFormed(v: seq<uint32>)
  {
    |v| >= 2 && ToUint8(v[1]) <= CanMaxDlen && |v| >= 2 + ToUint8(v[1])
  }

  /**
   * PUT direction: the frame after the decoder has overwritten the fields of
   * `prev`, the frame variable as it stood before. can_dlc and each data byte
   * keep the low 8 bits of their element; bytes past can_dlc are not written.
   */
  function DecodeInto(prev: CanFrame, v: seq<uint32>): (f: CanFrame)
    requires WellFormed(v)
    ensures f.canId == v[0]
    ensures f.canDlc == v[1] % 0x100
    ensures forall i :: 0 <= i < f.canDlc ==> f.data[i] == v[i + 2] % 0x100
    ensures forall i :: f.canDlc <= i < CanMaxDlen ==> f.data[i] == prev.data[i]
  {
    var dlc := ToUint8(v[1]);
    var data: seq<uint8> := seq(8, i requires 0 <= i < 8 => if i < dlc then ToUint8(v[i + 2]) else prev.data[i]);
    assert |data| == 8;
    CanFrame(v[0], dlc, data)
  }

  /** Every encoding is a well-formed PUT input. */
  lemma EncodeWellFormed(f: CanFrame)
    requires f.canDlc <= CanMaxDlen
    ensures WellFormed(Encode(f))
  {
  }

  /**
   * Round trip frame -> array -> frame: id, dlc and the first dlc data bytes
   * come back; the rest of the buffer is whatever the frame variable held.
   */
  lemma DecodeEncode(prev: CanFrame, f: CanFrame)
    requires f.canDlc <= CanMaxDlen
    ensures WellFormed(Encode(f))
    ensures DecodeInto(prev, Encode(f)) == f.(data := f.data[..f.canDlc] + prev.data[f.canDlc..])
  {
    var g := DecodeInto(prev, Encode(f));
    var d := f.data[..f.canDlc] + prev.data[f.canDlc..];
    assert |d| == 8;
    forall i | 0 <= i < 8
      ensures g.data[i] == d[i]
    {
      if i < f.canDlc {
        assert Encode(f)[i + 2] == f.data[i];
      }
    }
    assert g.data == d;
  }

  /** Re-sending a frame over itself reproduces it exactly. */
  lemma DecodeEncodeSame(f: CanFrame)
    requires f.canDlc <= CanMaxDlen
    ensures DecodeInto(f, Encode(f)) == f
  {
    DecodeEncode(f, f);
    assert f.data[..f.canDlc] + f.data[f.canDlc..] == f.data;
  }

  /**
   * Round trip array -> frame -> array: an input whose dlc and data elements
   * already fit in a byte comes back as its first dlc + 2 elements.
   */
  lemma EncodeDecode(prev: CanFrame, v: seq<uint32>)
    requires WellFormed(v)
    requires v[1] < 0x100
    requires forall i :: 2 <= i < 2 + v[1] ==> v[i] < 0x100
    ensures DecodeInto(prev, v).canDlc <= CanMaxDlen
    ensures Encode(DecodeInto(prev, v)) == v[..v[1] + 2]
  {
    var f := DecodeInto(prev, v);
    var e := Encode(f);
    forall i | 0 <= i < |e|
      ensures e[i] == v[i]
    {
      if i >= 2 {
        assert e[(i - 2) + 2] == f.data[i - 2];
      }
    }
  }
}
