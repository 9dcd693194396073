// Reading descriptors back out of the 32-bit words a generator wrote.
//
// Type 0 descriptors are 16 words, type 15 descriptors 64; both keep lane 0 in
// words 7 to 15: addresses, strides, then three pairs of 16-bit sizes with the
// read side in the low half. Bits 10 and 11 of word 1 select the internal buffer
// for reading and writing, the low six bits of word 1 hold the format.
module Descriptor {
  import opened Words
  import opened Machine

  // The top byte of word 38 enables the lanes: lane 0 alone.
  predicate OneLane(w: Word) {
    w / 0x100_0000 == 0x11
  }

  predicate Frame(ws: seq<Word>) {
    || (|ws| >= 16 && ws[0] % 16 == 0)
    || (|ws| >= 64 && ws[0] % 16 == 15 && OneLane(ws[38]))
  }

  function FrameLength(ws: seq<Word>): (n: nat)
    requires Frame(ws)
    ensures 0 < n <= |ws|
  {
    if ws[0] % 16 == 15 then 64 else 16
  }

  // Type 15 only: the in-swapper of word 34 is on and its matrix reverses four bytes.
  predicate SwapsFour(ws: seq<Word>)
    requires Frame(ws)
  {
    ws[0] % 16 == 15 && ws[34] / 0x1000 % 16 == 3 && ws[2] % 0x1_0000 == 0x1248
  }

  function Decode(ws: seq<Word>): Desc
    requires Frame(ws)
  {
    var dst := Side(ws[1] / 0x800 % 2 == 1, ws[8], ws[10], ws[12],
                    ws[13] / 0x1_0000, ws[14] / 0x1_0000, ws[15] / 0x1_0000);
    if ws[0] % 16 == 0 && ws[1] % 64 == 1 then Fill(ws[2], dst)
    else
      Copy(Side(ws[1] / 0x400 % 2 == 1, ws[7], ws[9], ws[11],
                ws[13] % 0x1_0000, ws[14] % 0x1_0000, ws[15] % 0x1_0000),
           dst, SwapsFour(ws))
  }

  // The program a buffer holds: descriptor after descriptor, until what is left
  // is not a complete one.
  function DecodeAll(ws: seq<Word>): seq<Desc>
    decreases |ws|
  {
    if Frame(ws) then [Decode(ws)] + DecodeAll(ws[FrameLength(ws)..]) else []
  }

  // The words are exactly the descriptors of p, back to back.
  predicate Reads(ws: seq<Word>, p: seq<Desc>) {
    if p == [] then ws == [] else Frame(ws) && Decode(ws) == p[0] && Reads(ws[FrameLength(ws)..], p[1..])
  }

  // Decoding looks only at the frame itself.
  lemma DecodeFrame(ws: seq<Word>, more: seq<Word>)
    requires Frame(ws)
    ensures Frame(ws + more) && FrameLength(ws + more) == FrameLength(ws) && Decode(ws + more) == Decode(ws)
  {
  }

  lemma {:induction false} ReadsConcat(ws: seq<Word>, p: seq<Desc>, more: seq<Word>, q: seq<Desc>)
    requires Reads(ws, p) && Reads(more, q)
    ensures Reads(ws + more, p + q)
    decreases |p|
  {
    if p == [] {
      assert ws + more == more && p + q == q;
    } else {
      DecodeFrame(ws, more);
      var k := FrameLength(ws);
      assert (ws + more)[k..] == ws[k..] + more;
      assert (p + q)[0] == p[0] && (p + q)[1..] == p[1..] + q;
      ReadsConcat(ws[k..], p[1..], more, q);
    }
  }

  lemma {:induction false} ReadsDecodes(ws: seq<Word>, p: seq<Desc>)
    requires Reads(ws, p)
    ensures DecodeAll(ws) == p
    decreases |p|
  {
    if p == [] {
    } else {
      ReadsDecodes(ws[FrameLength(ws)..], p[1..]);
    }
  }
}
