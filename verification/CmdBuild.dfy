// The fixed command header, and building a whole buffer from a sub-command
// list.
module CmdBuild {
  import opened Words
  import opened CmdGraph
  import opened CmdLayout
  import opened CmdRoundTrip
  import opened CmdBuffer
  import opened SubCommand
  import opened CmdWriter
  import opened CmdLists

  const MAGIC_LOW: Word := 0xe309_c231
  const MAGIC_HIGH: Word := 0x3d20_70ec
  const VERSION: Byte := 1
  const PRIORITY_MAX: Byte := 32

  type Short = x: int | 0 <= x < 0x1_0000

  datatype Property = Property(priority: Byte, softLimit: Short, hardLimit: Short, powerSave: bool)

  // mFlagBitmap: bit 0 and bit 1; no other bit is ever set.
  datatype Bitmap = Bitmap(powerSave: bool, fence: bool)

  function Ullong(flags: Bitmap): Word {
    (if flags.powerSave then 1 else 0) + (if flags.fence then 2 else 0)
  }

  // A pointer stored as 64 bits.
  datatype Handle = Handle(low: Word, high: Word)

  const NULL := Handle(0, 0)

  // The number of sub-commands the buffer was built for.
  function BuiltFor(b: seq<Byte>): nat {
    Read32(b, 32)
  }

  // The buffer has the fence slot of its own count.
  predicate Slotted(b: seq<Byte>) {
    BuiltFor(b) > 0 && FenceOfs(BuiltFor(b)) + FENCE <= |b|
  }

  // What the fixed header carries: the buffer's own handle, the properties that
  // _setCmdPropertyToBuf writes, and the count.
  datatype Title = Title(uid: Handle, prop: Property, flags: Bitmap, n: nat)

  datatype Field = Magic | Uid | Version | Priority | Limits | Pid | Flags | NumSc

  predicate FieldAt(b: seq<Byte>, t: Title, f: Field)
    requires HDR <= |b|
  {
    match f
    case Magic => Get32(b, 0) == MAGIC_LOW && Get32(b, 4) == MAGIC_HIGH
    case Uid => Get32(b, 8) == t.uid.low && Get32(b, 12) == t.uid.high && t.uid != NULL
    case Version => b[16] == VERSION
    case Priority => b[17] == t.prop.priority
    case Limits => Get16(b, 18) == t.prop.hardLimit && Get16(b, 20) == t.prop.softLimit
    case Pid => Get16(b, 22) == 0
    case Flags => Get32(b, 24) == Ullong(t.flags) && Get32(b, 28) == 0
    case NumSc => BuiltFor(b) == t.n && Slotted(b)
  }

  ghost predicate Titled(b: seq<Byte>, t: Title) {
    HDR <= |b| && forall f :: FieldAt(b, t, f)
  }

  // Bit 0 of the flags is power save and bit 1 the fence, and there are no others.
  lemma FlagBits(b: seq<Byte>, t: Title)
    requires Titled(b, t)
    ensures 32 <= |b| && b[24] < 4 && (b[24] % 2 == 1 <==> t.flags.powerSave) && (b[24] / 2 % 2 == 1 <==> t.flags.fence)
    ensures forall k :: 25 <= k < 32 ==> b[k] == 0
  {
    assert FieldAt(b, t, Flags);
    Four(b, 24);
    Four(b, 28);
  }

  // The properties in their bytes, the low byte of each limit first.
  lemma PropertyBytes(b: seq<Byte>, t: Title)
    requires Titled(b, t)
    ensures 32 <= |b| && b[17] == t.prop.priority
    ensures b[18] == t.prop.hardLimit % 0x100 && b[19] == t.prop.hardLimit / 0x100
    ensures b[20] == t.prop.softLimit % 0x100 && b[21] == t.prop.softLimit / 0x100
  {
    assert FieldAt(b, t, Priority) && FieldAt(b, t, Limits);
  }

  lemma FieldKept(b: seq<Byte>, b': seq<Byte>, t: Title, f: Field)
    requires HDR <= |b| && FieldAt(b, t, f) && Agree(b, b', 0, 36)
    ensures FieldAt(b', t, f)
  {
    Get32Kept(b, b', 0, 36);
  }

  lemma TitleKept(b: seq<Byte>, b': seq<Byte>, t: Title)
    requires Titled(b, t) && Agree(b, b', 0, 36)
    ensures Titled(b', t)
  {
    forall f
      ensures FieldAt(b', t, f)
    {
      FieldKept(b, b', t, f);
    }
  }

  // What checkCmdValid looks at.
  predicate Passes(b: seq<Byte>) {
    && HDR <= |b| && Get32(b, 0) == MAGIC_LOW && Get32(b, 4) == MAGIC_HIGH
    && (Get32(b, 8) != 0 || Get32(b, 12) != 0) && b[16] == VERSION && b[17] < PRIORITY_MAX && Get32(b, 32) != 0
  }

  // A buffer constructCmd built passes exactly when its priority is below the
  // limit; setCmdProperty also lets the limit itself through.
  lemma PassesIff(b: seq<Byte>, t: Title)
    requires Titled(b, t)
    ensures Passes(b) <==> t.prop.priority < 32
  {
    assert FieldAt(b, t, Magic) && FieldAt(b, t, Uid) && FieldAt(b, t, Version) && FieldAt(b, t, Priority) && FieldAt(b, t, NumSc);
    assert t.uid != Handle(0, 0);
  }

  // apusysCmd::checkCmdValid, on a buffer of at least header size.
  method CheckCmdValid(buf: array?<Byte>) returns (ok: bool)
    requires buf != null ==> HDR <= buf.Length
    ensures ok <==> buf != null && Passes(buf[..])
    ensures ok <==> buf != null && Get32(buf[..], 0) == 0xe309_c231 && Get32(buf[..], 4) == 0x3d20_70ec
                    && (Get32(buf[..], 8) != 0 || Get32(buf[..], 12) != 0) && buf[16] == 1 && buf[17] < 32 && Get32(buf[..], 32) != 0
  {
    if buf == null {
      return false;
    }
    var b := buf[..];
    if Get32(b, 0) != MAGIC_LOW || Get32(b, 4) != MAGIC_HIGH {
      return false;
    }
    if Get32(b, 8) == 0 && Get32(b, 12) == 0 {
      return false;
    }
    if b[16] != VERSION || b[17] >= PRIORITY_MAX || Get32(b, 32) == 0 {
      return false;
    }
    ok := true;
  }

  method StoreProperty(buf: array<Byte>, prop: Property, flags: Bitmap)
    requires HDR <= buf.Length
    modifies buf
    ensures forall t: Title :: t.prop == prop && t.flags == flags ==>
              FieldAt(buf[..], t, Priority) && FieldAt(buf[..], t, Limits) && FieldAt(buf[..], t, Flags)
    ensures Agree(old(buf[..]), buf[..], 0, 17) && Agree(old(buf[..]), buf[..], 22, 24) && Agree(old(buf[..]), buf[..], 32, buf.Length)
  {
    Store8(buf, 17, prop.priority);
    Store16(buf, 18, prop.hardLimit);
    Store16(buf, 20, prop.softLimit);
    Store32(buf, 24, Ullong(flags));
    Store32(buf, 28, 0);
  }

  // Only the property fields have changed.
  lemma Retitled(b: seq<Byte>, b': seq<Byte>, t: Title, t': Title)
    requires Titled(b, t) && t'.uid == t.uid && t'.n == t.n
    requires Agree(b, b', 0, 17) && Agree(b, b', 22, 24) && Agree(b, b', 32, |b|)
    requires FieldAt(b', t', Priority) && FieldAt(b', t', Limits) && FieldAt(b', t', Flags)
    ensures Titled(b', t')
  {
    forall f
      ensures FieldAt(b', t', f)
    {
      assert FieldAt(b, t, f);
      Get32Kept(b, b', 0, 17);
      Get32Kept(b, b', 32, |b|);
    }
  }

  // ----- building a buffer -----

  lemma FirstHeader(g: Graph)
    ensures FenceOfs(|g|) + FENCE == HdrOfs(g, 0) <= DepOfs(g) <= PdrOfs(g) <= Size(g)
  {
  }

  // Between the stages of Build: h has the fixed header, f the sub-command
  // headers, o the two table offsets, e the lists.
  lemma Headed(h: seq<Byte>, f: seq<Byte>, o: seq<Byte>, e: seq<Byte>, g: Graph)
    requires Filled(h, f, g, |g|) && Only(f, o, 36, 44) && Listed(o, e, g, |g|)
    ensures HeadersAt(e, g, |g|) && Agree(h, e, 0, 36) && Agree(h, e, FenceOfs(|g|), FenceOfs(|g|) + FENCE)
    ensures Agree(o, e, 36, 44)
  {
    FilledAll(h, f, g, |g|);
    OnlyAgrees(f, o, 36, 44, HDR, |f|);
    HeadersKept(f, o, g, |g|);
    HeadersKept(o, e, g, |g|);
    FirstHeader(g);
  }

  lemma Encoded(h: seq<Byte>, o: seq<Byte>, e: seq<Byte>, g: Graph)
    requires |e| == Size(g) < 0x1_0000_0000 && HeadersAt(e, g, |g|) && Listed(o, e, g, |g|)
    requires Get32(e, 32) == |g| && Get32(o, 36) == DepOfs(g) && Get32(o, 40) == PdrOfs(g) && Agree(o, e, 36, 44)
    ensures Encodes(e, g)
  {
    Get32Kept(o, e, 36, 44);
    ListsLength(g, |g|);
    assert g[..|g|] == g;
    EncodesAll(e, g);
  }

  lemma AgreeTrans(a: seq<Byte>, b: seq<Byte>, c: seq<Byte>, lo: nat, hi: nat)
    requires Agree(a, b, lo, hi) && Agree(b, c, lo, hi)
    ensures Agree(a, c, lo, hi)
  {
  }

  // The fixed header.
  method StampHeader(buf: array<Byte>, n: Word, uid: Handle, prop: Property, flags: Bitmap)
    requires FenceOfs(n) + FENCE <= buf.Length && uid != NULL && n > 0
    modifies buf
    ensures Titled(buf[..], Title(uid, prop, flags, n))
    ensures Agree(old(buf[..]), buf[..], HDR, buf.Length)
  {
    Store32(buf, 0, MAGIC_LOW);
    Store32(buf, 4, MAGIC_HIGH);
    Store32(buf, 8, uid.low);
    Store32(buf, 12, uid.high);
    Store8(buf, 16, VERSION);
    Store16(buf, 22, 0);
    ghost var t := Title(uid, prop, flags, n);
    assert FieldAt(buf[..], t, Magic) && FieldAt(buf[..], t, Uid) && FieldAt(buf[..], t, Version) && FieldAt(buf[..], t, Pid);
    StoreCount(buf, n, t, prop, flags);
  }

  method StoreCount(buf: array<Byte>, n: Word, ghost t: Title, prop: Property, flags: Bitmap)
    requires FenceOfs(n) + FENCE <= buf.Length && n > 0 && t.prop == prop && t.flags == flags && t.n == n
    requires FieldAt(buf[..], t, Magic) && FieldAt(buf[..], t, Uid) && FieldAt(buf[..], t, Version) && FieldAt(buf[..], t, Pid)
    modifies buf
    ensures Titled(buf[..], t) && Agree(old(buf[..]), buf[..], HDR, buf.Length)
  {
    ghost var b := buf[..];
    StoreProperty(buf, prop, flags);
    ghost var p := buf[..];
    Get32Kept(b, p, 0, 17);
    assert FieldAt(p, t, Priority) && FieldAt(p, t, Limits) && FieldAt(p, t, Flags);
    Store32(buf, 32, n);
    CountStored(p, buf[..], t);
  }

  // All fields but the count were there; now the count is, too.
  lemma CountStored(b: seq<Byte>, b': seq<Byte>, t: Title)
    requires HDR <= |b| && Only(b, b', 32, 36) && FieldAt(b', t, NumSc)
    requires forall f :: f != NumSc ==> FieldAt(b, t, f)
    ensures Titled(b', t)
  {
    forall f
      ensures FieldAt(b', t, f)
    {
      assert f != NumSc ==> FieldAt(b, t, f);
    }
  }

  method PlaceTables(subs: seq<SubCmd>, buf: array<Byte>, depSize: Word, ghost g: Graph)
    requires Models(subs, g) && ListsInRange(g) && depSize == 4 * SuccWords(g)
    requires buf.Length == Size(g) < 0x1_0000_0000 && Get32(buf[..], 32) == |g|
    modifies subs, buf
    ensures Models(subs, g) && Entries(subs, buf, g, |g|) && Encodes(buf[..], g)
    ensures Agree(old(buf[..]), buf[..], 0, 36) && Agree(old(buf[..]), buf[..], FenceOfs(|g|), FenceOfs(|g|) + FENCE)
  {
    FirstHeader(g);
    ghost var h := buf[..];
    var dep := PlaceHeaders(subs, buf, g);
    PlaceLists(subs, buf, depSize, h, g, dep);
  }

  method PlaceLists(subs: seq<SubCmd>, buf: array<Byte>, depSize: Word, ghost h: seq<Byte>, ghost g: Graph, dep: nat)
    requires Models(subs, g) && ListsInRange(g) && depSize == 4 * SuccWords(g) && dep == DepOfs(g)
    requires buf.Length == Size(g) < 0x1_0000_0000 && |h| == Size(g) && Get32(h, 32) == |g| && Filled(h, buf[..], g, |g|)
    modifies buf
    ensures Encodes(buf[..], g)
    ensures Agree(h, buf[..], 0, 36) && Agree(h, buf[..], FenceOfs(|g|), FenceOfs(|g|) + FENCE)
  {
    ghost var f := buf[..];
    var pdr := dep + depSize;
    Store32(buf, 36, dep);
    Store32(buf, 40, pdr);
    ghost var o := buf[..];
    WriteLists(subs, buf, g, dep, pdr);
    Headed(h, f, o, buf[..], g);
    Get32Kept(h, buf[..], 0, 36);
    Encoded(h, o, buf[..], g);
  }

  // constructCmd after the allocation.
  method Build(subs: seq<SubCmd>, buf: array<Byte>, depSize: Word, prop: Property, flags: Bitmap, uid: Handle, ghost g: Graph)
    requires Models(subs, g) && ListsInRange(g) && g != [] && depSize == 4 * SuccWords(g)
    requires buf.Length == Size(g) < 0x1_0000_0000 && uid != NULL
    modifies subs, buf
    ensures Models(subs, g) && Homed(subs, buf, Places(g))
    ensures Encodes(buf[..], g) && Titled(buf[..], Title(uid, prop, flags, |g|))
    ensures buf[24] < 4 && (buf[24] % 2 == 1 <==> flags.powerSave) && (buf[24] / 2 % 2 == 1 <==> flags.fence)
    ensures forall k :: 25 <= k < 32 ==> buf[k] == 0
    ensures Agree(old(buf[..]), buf[..], FenceOfs(|g|), FenceOfs(|g|) + FENCE)
  {
    FirstHeader(g);
    ghost var b := buf[..];
    StampHeader(buf, |subs|, uid, prop, flags);
    ghost var h := buf[..];
    assert FieldAt(h, Title(uid, prop, flags, |g|), NumSc);
    PlaceTables(subs, buf, depSize, g);
    TitleKept(h, buf[..], Title(uid, prop, flags, |g|));
    FlagBits(buf[..], Title(uid, prop, flags, |g|));
    EntriesHomed(subs, buf, g, |g|);
    AgreeTrans(b, h, buf[..], FenceOfs(|g|), FenceOfs(|g|) + FENCE);
  }
}
