// Stores into a command buffer.
module CmdBuffer {
  import opened Words
  import opened CmdLayout

  function Get16(b: seq<Byte>, at: nat): nat
    requires at + 2 <= |b|
  {
    b[at] + 0x100 * b[at + 1] as int
  }

  // Only bytes lo .. hi-1 may differ; words that avoid them keep their value.
  ghost predicate Only(b: seq<Byte>, b': seq<Byte>, lo: nat, hi: nat) {
    && |b| == |b'|
    && (forall k :: 0 <= k < |b| && (k < lo || hi <= k) ==> b'[k] == b[k])
    && (forall p: nat :: p + 4 <= |b| && (p + 4 <= lo || hi <= p) ==> Get32(b', p) == Get32(b, p))
  }

  lemma OnlyFromBytes(b: seq<Byte>, b': seq<Byte>, lo: nat, hi: nat)
    requires |b| == |b'| && forall k :: 0 <= k < |b| && (k < lo || hi <= k) ==> b'[k] == b[k]
    ensures Only(b, b', lo, hi)
  {
    Get32Kept(b, b', 0, lo);
    Get32Kept(b, b', hi, |b|);
  }

  lemma OnlyTrans(a: seq<Byte>, b: seq<Byte>, c: seq<Byte>, lo: nat, hi: nat, lo': nat, hi': nat)
    requires Only(a, b, lo', hi') && Only(b, c, lo, hi) && lo' <= lo && hi <= hi'
    ensures Only(a, c, lo', hi')
  {
  }

  lemma OnlyAgrees(b: seq<Byte>, b': seq<Byte>, lo: nat, hi: nat, from: int, to: int)
    requires Only(b, b', lo, hi) && (to <= lo || hi <= from)
    ensures Agree(b, b', from, to)
  {
  }

  method Store8(buf: array<Byte>, at: nat, v: Byte)
    requires at < buf.Length
    modifies buf
    ensures buf[..][at] == v && Only(old(buf[..]), buf[..], at, at + 1)
  {
    buf[at] := v;
    OnlyFromBytes(old(buf[..]), buf[..], at, at + 1);
  }

  method Store16(buf: array<Byte>, at: nat, v: nat)
    requires at + 2 <= buf.Length && v < 0x1_0000
    modifies buf
    ensures Get16(buf[..], at) == v && Only(old(buf[..]), buf[..], at, at + 2)
  {
    buf[at], buf[at + 1] := v % 0x100, v / 0x100;
    OnlyFromBytes(old(buf[..]), buf[..], at, at + 2);
  }

  method Store32(buf: array<Byte>, at: nat, w: Word)
    requires at + 4 <= buf.Length
    modifies buf
    ensures Get32(buf[..], at) == w && Only(old(buf[..]), buf[..], at, at + 4)
  {
    buf[at], buf[at + 1], buf[at + 2], buf[at + 3] :=
      w % 0x100, (w / 0x100) % 0x100, (w / 0x1_0000) % 0x100, w / 0x100_0000;
    Four(buf[..], at);
    OnlyFromBytes(old(buf[..]), buf[..], at, at + 4);
  }
}
