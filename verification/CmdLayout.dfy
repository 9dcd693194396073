// The packed command buffer: where each region lies, what a buffer built from a
// graph holds, and how a reader gets the graph back.
//
//   0            fixed header (44 bytes)
//   44           offset of every sub-command header
//   44 + 4n      fence slot (16 bytes)
//   60 + 4n      sub-command headers, 40 bytes each and 12 more for MDLA
//   DepOfs       successor lists: a count, then the entries
//   PdrOfs       predecessor counts
module CmdLayout {
  import opened Words
  import opened CmdGraph

  // ----- little-endian words in a byte buffer -----

  // Bytes lo .. hi-1, least significant first.
  function LittleEndian(b: seq<Byte>, lo: nat, hi: nat): (v: nat)
    requires lo <= hi <= |b|
    decreases hi - lo
  {
    if lo == hi then 0 else b[lo] as int + 0x100 * LittleEndian(b, lo + 1, hi)
  }

  function Get32(b: seq<Byte>, at: nat): nat
    requires at + 4 <= |b|
  {
    LittleEndian(b, at, at + 4)
  }

  lemma Four(b: seq<Byte>, at: nat)
    requires at + 4 <= |b|
    ensures LittleEndian(b, at, at + 4) == b[at] as int + 0x100 * b[at + 1] as int + 0x1_0000 * b[at + 2] as int + 0x100_0000 * b[at + 3] as int
  {
    assert LittleEndian(b, at + 3, at + 4) == b[at + 3];
    assert LittleEndian(b, at + 2, at + 4) == b[at + 2] as int + 0x100 * b[at + 3] as int;
    assert LittleEndian(b, at + 1, at + 4) == b[at + 1] as int + 0x100 * LittleEndian(b, at + 2, at + 4);
  }

  lemma {:induction false} LittleEndianKept(b: seq<Byte>, b': seq<Byte>, lo: nat, hi: nat)
    requires lo <= hi <= |b| && Agree(b, b', lo, hi)
    ensures LittleEndian(b', lo, hi) == LittleEndian(b, lo, hi)
    decreases hi - lo
  {
    if hi <= lo {
    } else {
      LittleEndianKept(b, b', lo + 1, hi);
    }
  }

  // A word whose bytes are untouched keeps its value.
  lemma Get32Kept(b: seq<Byte>, b': seq<Byte>, lo: int, hi: int)
    requires Agree(b, b', lo, hi)
    ensures forall at: nat :: lo <= at && at + 4 <= hi && at + 4 <= |b| ==> Get32(b', at) == Get32(b, at)
  {
    forall at: nat | lo <= at && at + 4 <= hi && at + 4 <= |b|
      ensures Get32(b', at) == Get32(b, at)
    {
      LittleEndianKept(b, b', at, at + 4);
    }
  }

  predicate Agree(b: seq<Byte>, b': seq<Byte>, lo: int, hi: int) {
    |b| == |b'| && forall k :: 0 <= k < |b| && lo <= k < hi ==> b[k] == b'[k]
  }

  // ----- layout -----

  const HDR: nat := 44
  const FENCE: nat := 16
  const SC_HDR: nat := 40
  const MDLA_HDR: nat := 12

  function HdrLen(node: Node): nat {
    if node.dev == DEVICE_MDLA then SC_HDR + MDLA_HDR else SC_HDR
  }

  function FenceOfs(n: nat): nat {
    HDR + 4 * n
  }

  // Start of the i-th sub-command header; of the successor region for i = n.
  function HdrOfs(g: Graph, i: nat): (ofs: nat)
    requires i <= |g|
    ensures FenceOfs(|g|) + FENCE + 40 * i <= ofs
  {
    if i == 0 then FenceOfs(|g|) + FENCE else HdrOfs(g, i - 1) + HdrLen(g[i - 1])
  }

  function DepOfs(g: Graph): nat {
    HdrOfs(g, |g|)
  }

  function PdrOfs(g: Graph): nat {
    DepOfs(g) + 4 * SuccWords(g)
  }

  function Size(g: Graph): nat {
    PdrOfs(g) + 4 * |g|
  }

  function MdlaCount(g: Graph): nat {
    if g == [] then 0 else MdlaCount(g[..|g| - 1]) + (if g[|g| - 1].dev == DEVICE_MDLA then 1 else 0)
  }

  lemma {:induction false} HdrOfsPrefix(g: Graph, i: nat)
    requires i <= |g|
    ensures HdrOfs(g, i) == FenceOfs(|g|) + FENCE + 40 * i + 12 * MdlaCount(g[..i])
  {
    if i == 0 {
    } else {
      HdrOfsPrefix(g, i - 1);
      assert g[..i][..i - 1] == g[..i - 1];
    }
  }

  // Header i follows the fixed part and i headers, of which the MDLA ones (device 2)
  // are twelve bytes longer.
  lemma {:induction false} HeaderPlaces(g: Graph, i: nat, mdla: set<nat>)
    requires i <= |g| && mdla == set j: nat | j < i && g[j].dev == 2
    ensures HdrOfs(g, i) == 60 + 4 * |g| + 40 * i + 12 * |mdla|
  {
    if i > 0 {
      var less := mdla - {i - 1};
      HeaderPlaces(g, i - 1, less);
      assert g[i - 1].dev == 2 ==> mdla == less + {i - 1};
      assert g[i - 1].dev != 2 ==> mdla == less;
    } else {
      assert mdla == {};
    }
  }

  // What _calcCmdSize adds up, from the number of sub-commands, the running byte
  // count and the number of MDLA sub-commands.
  function CalcSize(n: nat, depBytes: nat, mdla: nat): nat {
    if n == 0 then 0
    else HDR + FENCE + n * 4 + depBytes + n * 4 + n * 40 + 12 * mdla
  }

  // The allocation is exactly the last region's end.
  lemma SizeIsCalc(g: Graph)
    requires g != []
    ensures CalcSize(|g|, 4 * SuccWords(g), MdlaCount(g)) == Size(g)
  {
    HdrOfsPrefix(g, |g|);
    assert g[..|g|] == g;
  }

  lemma {:induction false} HdrOfsMonotone(g: Graph, i: nat, j: nat)
    requires i < j <= |g|
    ensures HdrOfs(g, i) + HdrLen(g[i]) <= HdrOfs(g, j)
  {
    if j <= i + 1 {
    } else {
      HdrOfsMonotone(g, i, j - 1);
    }
  }

  datatype Region = Header | Offset(i: nat) | Fence | SubHeader(i: nat) | Successors | PredCount(i: nat)

  // Whether byte p belongs to the region.
  predicate In(g: Graph, r: Region, p: nat) {
    match r
    case Header => p < HDR
    case Offset(i) => i < |g| && HDR + 4 * i <= p < HDR + 4 * i + 4
    case Fence => FenceOfs(|g|) <= p < FenceOfs(|g|) + FENCE
    case SubHeader(i) => i < |g| && HdrOfs(g, i) <= p < HdrOfs(g, i) + HdrLen(g[i])
    case Successors => DepOfs(g) <= p < PdrOfs(g)
    case PredCount(i) => i < |g| && PdrOfs(g) + 4 * i <= p < PdrOfs(g) + 4 * i + 4
  }

  lemma {:induction false} HeaderOf(g: Graph, p: nat, j: nat) returns (i: nat)
    requires j <= |g| && HdrOfs(g, 0) <= p < HdrOfs(g, j)
    ensures i < j && In(g, SubHeader(i), p)
  {
    if HdrOfs(g, j - 1) <= p {
      i := j - 1;
    } else {
      i := HeaderOf(g, p, j - 1);
    }
  }

  // The regions tile [0, Size(g)): every byte lies in exactly one of them, and
  // no byte past the end lies in any.
  lemma Tiling(g: Graph, p: nat) returns (r: Region)
    ensures p < Size(g) && g != [] ==> In(g, r, p) && forall q :: In(g, q, p) ==> q == r
    ensures Size(g) <= p ==> forall q :: !In(g, q, p)
  {
    forall i: nat | i < |g|
      ensures HdrOfs(g, 0) <= HdrOfs(g, i) && HdrOfs(g, i) + HdrLen(g[i]) <= DepOfs(g)
    {
      HdrOfsMonotone(g, i, |g|);
    }
    if p < HDR {
      r := Header;
    } else if p < FenceOfs(|g|) {
      r := Offset((p - HDR) / 4);
    } else if p < HdrOfs(g, 0) {
      r := Fence;
    } else if p < DepOfs(g) {
      var i := HeaderOf(g, p, |g|);
      r := SubHeader(i);
      forall j: nat | In(g, SubHeader(j), p)
        ensures j == i
      {
        if j < i {
          HdrOfsMonotone(g, j, i);
        } else if i < j {
          HdrOfsMonotone(g, i, j);
        }
      }
    } else if p < PdrOfs(g) {
      r := Successors;
    } else {
      r := PredCount((p - PdrOfs(g)) / 4);
    }
  }

  // ----- contents -----

  // memFd | (1UL << 31), stored in 32 bits.
  function CodebufInfo(fd: int): Word {
    if Wrap(fd) < 0x8000_0000 then Wrap(fd) + 0x8000_0000 else Wrap(fd)
  }

  // The fields constructHeader sets; ip_time at 8 is left alone.
  datatype HdrField =
    | DevType | DriverTime | SuggestTime | Bandwidth | TcmUsage | TcmForce | BoostVal | PackId | Reserved | MemCtx | CbInfoSize | OfsCbInfo

  predicate HdrFieldAt(b: seq<Byte>, at: nat, node: Node, f: HdrField)
    requires at + SC_HDR <= |b|
  {
    match f
    case DevType => Get32(b, at) == Wrap(node.dev)
    case DriverTime => Get32(b, at + 4) == node.tune.estimate
    case SuggestTime => Get32(b, at + 12) == node.tune.suggest
    case Bandwidth => Get32(b, at + 16) == node.tune.bandwidth
    case TcmUsage => Get32(b, at + 20) == 0
    case TcmForce => b[at + 24] == if node.tune.tcmForce then 1 else 0
    case BoostVal => b[at + 25] == node.tune.boost
    case PackId => b[at + 26] == node.pack % 0x100
    case Reserved => b[at + 27] == 0
    case MemCtx => Get32(b, at + 28) == node.ctx
    case CbInfoSize => Get32(b, at + 32) == node.size
    case OfsCbInfo => Get32(b, at + 36) == CodebufInfo(node.fd)
  }

  predicate HdrAt(b: seq<Byte>, at: nat, node: Node)
    requires at + SC_HDR <= |b|
  {
    forall f :: HdrFieldAt(b, at, node, f)
  }

  // A successor list as constructCmd writes it: an entry equal to the
  // sub-command's own index is skipped.
  function Skipping(succ: seq<int>, k: nat, self: int): (r: seq<int>)
    requires k <= |succ|
    ensures |r| <= k
  {
    if k == 0 then []
    else if succ[k - 1] == self then Skipping(succ, k - 1, self)
    else Skipping(succ, k - 1, self) + [succ[k - 1]]
  }

  // The words written for the first i lists.
  function Written(g: Graph, i: nat): seq<int>
    requires i <= |g|
  {
    if i == 0 then [] else Written(g, i - 1) + [|g[i - 1].succ|] + Skipping(g[i - 1].succ, |g[i - 1].succ|, i - 1)
  }

  // The words a reader expects for the first i lists.
  function Lists(g: Graph, i: nat): seq<int>
    requires i <= |g|
  {
    if i == 0 then [] else Lists(g, i - 1) + [|g[i - 1].succ|] + g[i - 1].succ
  }

  // Word k of a region of words.
  function Entry(b: seq<Byte>, at: nat, k: nat): nat
    requires at + 4 * k + 4 <= |b|
  {
    Get32(b, at + 4 * k)
  }

  predicate WordsAt(b: seq<Byte>, at: nat, ws: seq<int>) {
    at + 4 * |ws| <= |b| && forall k :: 0 <= k < |ws| ==> Entry(b, at, k) == ws[k]
  }

  // The tables are in place and the first n sub-commands are written.
  ghost predicate EncodesFirst(b: seq<Byte>, g: Graph, n: nat)
    requires n <= |g|
  {
    && |b| == Size(g) < 0x1_0000_0000
    && Get32(b, 32) == |g| && Get32(b, 36) == DepOfs(g) && Get32(b, 40) == PdrOfs(g)
    && HeadersAt(b, g, n)
    && |Written(g, n)| <= SuccWords(g)
    && WordsAt(b, DepOfs(g), Written(g, n))
    && CountsAt(b, g, n)
  }

  ghost predicate Encodes(b: seq<Byte>, g: Graph) {
    forall n: nat :: n <= |g| ==> EncodesFirst(b, g, n)
  }

  lemma {:induction false} FirstFewer(b: seq<Byte>, g: Graph, n: nat, m: nat)
    requires n <= m <= |g| && EncodesFirst(b, g, m)
    ensures EncodesFirst(b, g, n)
  {
    if m <= n {
    } else {
      assert Written(g, m)[..|Written(g, m - 1)|] == Written(g, m - 1);
      WordsPrefix(b, DepOfs(g), Written(g, m - 1), Written(g, m));
      FirstFewer(b, g, n, m - 1);
    }
  }

  lemma WordsPrefix(b: seq<Byte>, at: nat, vs: seq<int>, ws: seq<int>)
    requires WordsAt(b, at, ws) && vs <= ws
    ensures WordsAt(b, at, vs)
  {
    forall k | 0 <= k < |vs|
      ensures Entry(b, at, k) == vs[k]
    {
      assert Entry(b, at, k) == ws[k];
    }
  }

  lemma EncodesAll(b: seq<Byte>, g: Graph)
    ensures Encodes(b, g) <==> EncodesFirst(b, g, |g|)
  {
    if EncodesFirst(b, g, |g|) {
      forall n: nat | n <= |g|
        ensures EncodesFirst(b, g, n)
      {
        FirstFewer(b, g, n, |g|);
      }
    }
  }

  // The first n headers and offsets.
  predicate HeadersAt(b: seq<Byte>, g: Graph, n: nat)
    requires n <= |g| && |b| == Size(g)
  {
    n == 0 || (HeadersAt(b, g, n - 1) && HeaderAt(b, g, n - 1))
  }

  // The first n predecessor counts.
  predicate CountsAt(b: seq<Byte>, g: Graph, n: nat)
    requires n <= |g| && |b| == Size(g)
  {
    n == 0 || (CountsAt(b, g, n - 1) && CountAt(b, g, n - 1))
  }

  lemma {:induction false} AtEach(b: seq<Byte>, g: Graph, n: nat, i: nat)
    requires i < n <= |g| && |b| == Size(g)
    ensures HeadersAt(b, g, n) ==> HeaderAt(b, g, i)
    ensures CountsAt(b, g, n) ==> CountAt(b, g, i)
  {
    if i < n - 1 {
      AtEach(b, g, n - 1, i);
    }
  }

  // Headers and counts depend only on their own regions.
  lemma {:induction false} HeadersKept(b: seq<Byte>, b': seq<Byte>, g: Graph, n: nat)
    requires n <= |g| && |b| == Size(g) && HeadersAt(b, g, n)
    requires Agree(b, b', HDR, HDR + 4 * n) && Agree(b, b', HdrOfs(g, 0), HdrOfs(g, n))
    ensures HeadersAt(b', g, n)
  {
    if n == 0 {
    } else {
      HeadersKept(b, b', g, n - 1);
      HeaderKept(b, b', g, n - 1);
    }
  }

  lemma HeaderKept(b: seq<Byte>, b': seq<Byte>, g: Graph, i: nat)
    requires i < |g| && |b| == Size(g) && HeaderAt(b, g, i)
    requires Agree(b, b', HDR + 4 * i, HDR + 4 * i + 4) && Agree(b, b', HdrOfs(g, i), HdrOfs(g, i) + SC_HDR)
    ensures HeaderAt(b', g, i)
  {
    HdrOfsMonotone(g, i, |g|);
    Get32Kept(b, b', HDR + 4 * i, HDR + 4 * i + 4);
    HdrKept(b, b', HdrOfs(g, i), g[i]);
  }

  lemma HdrKept(b: seq<Byte>, b': seq<Byte>, at: nat, node: Node)
    requires at + SC_HDR <= |b| && HdrAt(b, at, node) && Agree(b, b', at, at + SC_HDR)
    ensures HdrAt(b', at, node)
  {
    Get32Kept(b, b', at, at + SC_HDR);
    forall f
      ensures HdrFieldAt(b', at, node, f)
    {
      assert HdrFieldAt(b, at, node, f);
    }
  }

  lemma {:induction false} CountsKept(b: seq<Byte>, b': seq<Byte>, g: Graph, n: nat)
    requires n <= |g| && |b| == Size(g) && CountsAt(b, g, n)
    requires Agree(b, b', PdrOfs(g), PdrOfs(g) + 4 * n)
    ensures CountsAt(b', g, n)
  {
    if n == 0 {
    } else {
      CountsKept(b, b', g, n - 1);
      Get32Kept(b, b', PdrOfs(g), PdrOfs(g) + 4 * n);
    }
  }

  lemma WordsKept(b: seq<Byte>, b': seq<Byte>, at: nat, ws: seq<int>)
    requires WordsAt(b, at, ws) && Agree(b, b', at, at + 4 * |ws|)
    ensures WordsAt(b', at, ws)
  {
    Get32Kept(b, b', at, at + 4 * |ws|);
    forall k | 0 <= k < |ws|
      ensures Entry(b', at, k) == ws[k]
    {
      assert Entry(b, at, k) == ws[k];
    }
  }

  // Entry i of the offset list and the header it points at.
  predicate HeaderAt(b: seq<Byte>, g: Graph, i: nat)
    requires i < |g| && |b| == Size(g)
  {
    HdrOfsMonotone(g, i, |g|);
    Get32(b, HDR + 4 * i) == HdrOfs(g, i) && HdrAt(b, HdrOfs(g, i), g[i])
  }

  predicate CountAt(b: seq<Byte>, g: Graph, i: nat)
    requires i < |g| && |b| == Size(g)
  {
    Get32(b, PdrOfs(g) + 4 * i) == Wrap(|g[i].pred|)
  }

  // ----- reading a command buffer -----

  // What the consumer of a buffer sees of one sub-command.
  datatype SubView = SubView(dev: int, pack: int, preds: int, succ: seq<int>)

  // Reads past the end give 0, so decoding is total.
  function Read32(b: seq<Byte>, at: nat): nat {
    if at + 4 <= |b| then Get32(b, at) else 0
  }

  function Read8(b: seq<Byte>, at: nat): Byte {
    if at < |b| then b[at] else 0
  }

  // Where list i starts: each list says how long it is.
  function ListAt(b: seq<Byte>, base: nat, i: nat): nat {
    if i == 0 then base else ListAt(b, base, i - 1) + 4 + 4 * Read32(b, ListAt(b, base, i - 1))
  }

  // n words from byte `at` on.
  function ReadWords(b: seq<Byte>, at: nat, n: nat): (r: seq<int>)
    ensures |r| == n
  {
    if n == 0 then [] else ReadWords(b, at, n - 1) + [Read32(b, at + 4 * (n - 1))]
  }

  // The list at byte `at`: a count, then that many entries.
  function SuccAt(b: seq<Byte>, at: nat): seq<int> {
    ReadWords(b, at + 4, Read32(b, at))
  }

  function Decode(b: seq<Byte>): (r: seq<SubView>)
    ensures |r| == Read32(b, 32)
  {
    seq(Read32(b, 32), i requires 0 <= i => DecodeOne(b, i))
  }

  function DecodeOne(b: seq<Byte>, i: nat): SubView {
    var hdr := Read32(b, HDR + 4 * i);
    SubView(Read32(b, hdr), Read8(b, hdr + 26), Read32(b, Read32(b, 40) + 4 * i),
            SuccAt(b, ListAt(b, Read32(b, 36), i)))
  }

  // What the graph says.
  function ViewOf(node: Node): SubView {
    SubView(node.dev, node.pack, |node.pred|, node.succ)
  }

  function View(g: Graph): (r: seq<SubView>)
    ensures |r| == |g|
  {
    seq(|g|, i requires 0 <= i < |g| => ViewOf(g[i]))
  }
}
