// One sub-command object and its header in the command buffer.
module SubCommand {
  import opened Words
  import opened CmdGraph
  import opened CmdLayout
  import opened CmdBuffer

  // What a command reads of a sub-command's own memory.
  datatype Mem = Mem(fd: int, size: Word)

  method StoreHeader(buf: array<Byte>, at: nat, node: Node)
    requires at + SC_HDR <= buf.Length
    modifies buf
    ensures HdrAt(buf[..], at, node)
    ensures Only(old(buf[..]), buf[..], at, at + SC_HDR) && Get32(buf[..], at + 8) == old(Get32(buf[..], at + 8))
  {
    Store32(buf, at, Wrap(node.dev));
    Store32(buf, at + 4, node.tune.estimate);
    Store32(buf, at + 12, node.tune.suggest);
    Store32(buf, at + 16, node.tune.bandwidth);
    Store32(buf, at + 20, 0);
    Store8(buf, at + 24, if node.tune.tcmForce then 1 else 0);
    Store8(buf, at + 25, node.tune.boost);
    Store8(buf, at + 27, 0);
    Store32(buf, at + 28, node.ctx);
    Store32(buf, at + 32, node.size);
    Store32(buf, at + 36, CodebufInfo(node.fd));
    Store8(buf, at + 26, node.pack % 0x100);
    OnlyFromBytes(old(buf[..]), buf[..], at, at + SC_HDR);
  }

  predicate TuneField(f: HdrField) {
    f.DriverTime? || f.SuggestTime? || f.Bandwidth? || f.TcmForce? || f.BoostVal?
  }

  // The tuning fields are new and the others as they were.
  lemma TunedFields(b: seq<Byte>, b': seq<Byte>, at: nat, node: Node, tune: Tune)
    requires at + SC_HDR <= |b| == |b'|
    requires forall f :: TuneField(f) ==> HdrFieldAt(b', at, node.(tune := tune), f)
    requires forall f :: !TuneField(f) && HdrFieldAt(b, at, node, f) ==> HdrFieldAt(b', at, node, f)
    ensures HdrAt(b, at, node) ==> HdrAt(b', at, node.(tune := tune))
  {
    if HdrAt(b, at, node) {
      forall f
        ensures HdrFieldAt(b', at, node.(tune := tune), f)
      {
        assert HdrFieldAt(b, at, node, f);
      }
    }
  }

  // Rewrite the tuning fields of a header.
  method StoreTune(buf: array<Byte>, at: nat, ghost node: Node, tune: Tune)
    requires at + SC_HDR <= buf.Length
    modifies buf
    ensures old(HdrAt(buf[..], at, node)) ==> HdrAt(buf[..], at, node.(tune := tune))
    ensures Only(old(buf[..]), buf[..], at, at + SC_HDR) && Get32(buf[..], at + 8) == old(Get32(buf[..], at + 8))
  {
    Store32(buf, at + 16, tune.bandwidth);
    Store32(buf, at + 4, tune.estimate);
    Store32(buf, at + 12, tune.suggest);
    Store8(buf, at + 24, if tune.tcmForce then 1 else 0);
    Store8(buf, at + 25, tune.boost);
    OnlyFromBytes(old(buf[..]), buf[..], at, at + SC_HDR);
    TunedFields(old(buf[..]), buf[..], at, node, tune);
  }

  // The fields the graph is made of are kept together in node.
  class SubCmd {
    const idx: nat
    var node: Node
    // mInfoEntry: a place in some command buffer, or null.
    var entry: array?<Byte>
    var ofs: nat

    constructor (idx: nat, dev: nat, mem: Mem)
      ensures this.idx == idx && node == Node(dev, [], [], 0, 0, DEFAULT_TUNE, mem.fd, mem.size) && entry == null
    {
      this.idx, node := idx, Node(dev, [], [], 0, 0, DEFAULT_TUNE, mem.fd, mem.size);
      entry, ofs := null, 0;
    }

    // The header lies in its buffer, past the fixed command header.
    predicate Placed()
      reads `entry, `ofs
    {
      entry != null ==> HDR <= ofs && ofs + SC_HDR <= entry.Length
    }

    // Every field but ip_time and, for MDLA, the 12 bytes that follow.
    method ConstructHeader() returns (ok: bool)
      requires Placed()
      modifies entry
      ensures ok <==> entry != null
      ensures ok ==> HdrAt(entry[..], ofs, node) && Only(old(entry[..]), entry[..], ofs, ofs + SC_HDR)
      ensures ok ==> Get32(entry[..], ofs + 8) == old(Get32(entry[..], ofs + 8))
    {
      if entry == null {
        return false;
      }
      StoreHeader(entry, ofs, node);
      ok := true;
    }

    // A header that described some sub-command describes it with the new
    // parameters; the check comes before any write.
    method SetTuneParam(tune: Tune, ghost was: Node) returns (ok: bool)
      requires Placed()
      modifies this`node, entry
      ensures ok <==> tune.boost <= 100 || tune.boost == 0xFF
      ensures node == if ok then old(node).(tune := tune) else old(node)
      ensures !ok && entry != null ==> entry[..] == old(entry[..])
      ensures entry != null ==> Only(old(entry[..]), entry[..], ofs, ofs + SC_HDR)
      ensures entry != null ==> Get32(entry[..], ofs + 8) == old(Get32(entry[..], ofs + 8))
      ensures ok && entry != null && old(HdrAt(entry[..], ofs, was)) ==> HdrAt(entry[..], ofs, was.(tune := tune))
    {
      if tune.boost > BOOST_LIMIT && tune.boost != BOOST_NONE {
        return false;
      }
      node := node.(tune := tune);
      if entry != null {
        StoreTune(entry, ofs, was, tune);
      }
      ok := true;
    }

    // Only this object changes: no header, and not the command.
    method SetCtxId(ctx: Word) returns (ok: bool)
      modifies this`node
      ensures ok && node == old(node).(ctx := ctx)
    {
      node := node.(ctx := ctx);
      ok := true;
    }

    // Rewriting the boost value changes nothing in a header that has it.
    method SetIOParam() returns (ok: bool)
      requires Placed()
      modifies entry
      ensures ok <==> entry != null
      ensures ok ==> entry[..] == old(entry[..])[ofs + 25 := node.tune.boost]
      ensures ok && old(HdrFieldAt(entry[..], ofs, node, BoostVal)) ==> entry[..] == old(entry[..])
    {
      if entry != null {
        entry[ofs + 25] := node.tune.boost;
        return true;
      }
      return false;
    }
  }
}
