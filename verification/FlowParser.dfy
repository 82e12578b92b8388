/** Greedy backtracking matching, as far as the flow descriptor needs it. */
module Regex {
  import opened Prelude

  /** `.+`, `\s+`, or literal text. */
  datatype Item = AnyRun | SpaceRun | Literal(text: string)

  /** The characters of `\s`. */
  predicate IsSpace(c: char)
  {
    c == ' ' || c == '\t' || c == '\n' || c == '\U{000C}' || c == '\r'
  }

  predicate Takes(item: Item, c: char)
    requires !item.Literal?
  {
    if item.AnyRun? then c != '\n' else IsSpace(c)
  }

  /** `item` matches s[lo..hi]. */
  predicate Chunk(item: Item, s: string, lo: nat, hi: nat)
  {
    && lo <= hi <= |s|
    && match item
       case Literal(text) => s[lo..hi] == text
       case _ => lo < hi && forall i :: lo <= i < hi ==> Takes(item, s[i])
  }

  /** The items match from `pos` on, the i-th one up to ends[i]. */
  predicate Fits(items: seq<Item>, s: string, pos: nat, ends: seq<nat>)
  {
    if items == [] then ends == []
    else ends != [] && Chunk(items[0], s, pos, ends[0]) && Fits(items[1..], s, ends[0], ends[1..])
  }

  /** The end of the longest run from `pos`. */
  function RunEnd(item: Item, s: string, pos: nat): (end: nat)
    requires !item.Literal? && pos <= |s|
    ensures pos <= end <= |s|
    ensures forall i :: pos <= i < end ==> Takes(item, s[i])
    ensures end < |s| ==> !Takes(item, s[end])
    decreases |s| - pos
  {
    if pos < |s| && Takes(item, s[pos]) then RunEnd(item, s, pos + 1) else pos
  }

  /** Matches the items from `pos`, preferring longer runs for earlier items. */
  function MatchAt(items: seq<Item>, s: string, pos: nat): Option<seq<nat>>
    requires pos <= |s|
    decreases |items|, |s| + 1
  {
    if items == [] then Some([])
    else match items[0]
      case Literal(text) =>
        if text <= s[pos..] then
          match MatchAt(items[1..], s, pos + |text|)
          case None => None
          case Some(ends) => Some([pos + |text|] + ends)
        else None
      case _ => Backtrack(items, s, pos, RunEnd(items[0], s, pos))
  }

  /** Tries the run's end at `end`, then one character earlier, and so on. */
  function Backtrack(items: seq<Item>, s: string, pos: nat, end: nat): Option<seq<nat>>
    requires items != [] && end <= |s|
    decreases |items|, end
  {
    if end <= pos then None
    else match MatchAt(items[1..], s, end)
      case Some(ends) => Some([end] + ends)
      case None => Backtrack(items, s, pos, end - 1)
  }

  /** FindStringSubmatch: the leftmost start that matches. */
  function FindFrom(items: seq<Item>, s: string, start: nat): (r: Option<(nat, seq<nat>)>)
    requires start <= |s|
    ensures r.Some? ==> start <= r.value.0 && Fits(items, s, r.value.0, r.value.1)
    ensures r.Some? ==> r.value.0 <= |s| && MatchAt(items, s, r.value.0) == Some(r.value.1)
    ensures r.Some? ==> forall p: nat, ends :: start <= p < r.value.0 ==> !Fits(items, s, p, ends)
    ensures r.None? ==> forall p: nat, ends :: start <= p <= |s| ==> !Fits(items, s, p, ends)
    decreases |s| - start
  {
    MatchIsSound(items, s, start);
    match MatchAt(items, s, start)
    case Some(ends) => Some((start, ends))
    case None =>
      assert forall ends :: !Fits(items, s, start, ends) by { NoMatchMeansNone(items, s, start); }
      if start < |s| then FindFrom(items, s, start + 1) else None
  }

  /** What the matcher returns is a match. */
  lemma {:induction false} MatchIsSound(items: seq<Item>, s: string, pos: nat)
    requires pos <= |s|
    ensures MatchAt(items, s, pos).Some? ==> Fits(items, s, pos, MatchAt(items, s, pos).value)
    decreases |items|, |s| + 1
  {
    if items != [] {
      if items[0].Literal? {
        var text := items[0].text;
        if text <= s[pos..] {
          assert s[pos..pos + |text|] == text;
          MatchIsSound(items[1..], s, pos + |text|);
        }
      } else {
        BacktrackIsSound(items, s, pos, RunEnd(items[0], s, pos));
      }
    }
  }

  lemma {:induction false} BacktrackIsSound(items: seq<Item>, s: string, pos: nat, end: nat)
    requires items != [] && !items[0].Literal? && end <= |s|
    requires forall i :: pos <= i < end ==> Takes(items[0], s[i])
    ensures Backtrack(items, s, pos, end).Some? ==> Fits(items, s, pos, Backtrack(items, s, pos, end).value)
    decreases |items|, end
  {
    if pos < end {
      MatchIsSound(items[1..], s, end);
      if MatchAt(items[1..], s, end).None? {
        BacktrackIsSound(items, s, pos, end - 1);
      }
    }
  }

  /** `a` is the same match as `b`, or longer at the first item where they differ. */
  predicate Greedier(a: seq<nat>, b: seq<nat>)
    requires |a| == |b|
  {
    a == [] || a[0] > b[0] || (a[0] == b[0] && Greedier(a[1..], b[1..]))
  }

  ghost predicate Beats(r: Option<seq<nat>>, ends: seq<nat>)
  {
    r.Some? && |r.value| == |ends| && Greedier(r.value, ends)
  }

  /** The matcher misses no match, and prefers its own to any other. */
  lemma {:induction false} MatchIsGreediest(items: seq<Item>, s: string, pos: nat, ends: seq<nat>)
    requires pos <= |s| && Fits(items, s, pos, ends)
    ensures Beats(MatchAt(items, s, pos), ends)
    decreases |items|, |s| + 1
  {
    if items != [] {
      if items[0].Literal? {
        assert s[pos..][..|items[0].text|] == s[pos..ends[0]];
        MatchIsGreediest(items[1..], s, ends[0], ends[1..]);
      } else {
        var end := RunEnd(items[0], s, pos);
        assert ends[0] <= end;
        BacktrackIsGreediest(items, s, pos, end, ends);
      }
    }
  }

  lemma {:induction false} BacktrackIsGreediest(items: seq<Item>, s: string, pos: nat, end: nat, ends: seq<nat>)
    requires items != [] && !items[0].Literal? && end <= |s| && Fits(items, s, pos, ends) && ends[0] <= end
    ensures Beats(Backtrack(items, s, pos, end), ends)
    decreases |items|, end
  {
    var r := MatchAt(items[1..], s, end);
    if ends[0] == end {
      MatchIsGreediest(items[1..], s, end, ends[1..]);
    } else if r.Some? {
      MatchIsSound(items[1..], s, end);
      FitsLength(items[1..], s, end, r.value);
      FitsLength(items, s, pos, ends);
    } else {
      BacktrackIsGreediest(items, s, pos, end - 1, ends);
    }
  }

  lemma NoMatchMeansNone(items: seq<Item>, s: string, pos: nat)
    requires pos <= |s| && MatchAt(items, s, pos).None?
    ensures forall ends :: !Fits(items, s, pos, ends)
  {
    forall ends | Fits(items, s, pos, ends)
      ensures false
    {
      MatchIsGreediest(items, s, pos, ends);
    }
  }

  lemma {:induction false} FitsLength(items: seq<Item>, s: string, pos: nat, ends: seq<nat>)
    requires Fits(items, s, pos, ends)
    ensures |ends| == |items|
  {
    if items != [] {
      FitsLength(items[1..], s, ends[0], ends[1..]);
    }
  }

  /** The i-th item's chunk starts where the one before it ends. */
  predicate ChunkAt(items: seq<Item>, s: string, pos: nat, ends: seq<nat>, i: nat)
    requires |ends| == |items| && i < |items|
  {
    Chunk(items[i], s, if i == 0 then pos else ends[i - 1], ends[i])
  }

  lemma {:induction false} FitsChunk(items: seq<Item>, s: string, pos: nat, ends: seq<nat>, i: nat)
    requires Fits(items, s, pos, ends) && i < |items|
    ensures |ends| == |items| && ChunkAt(items, s, pos, ends, i)
  {
    FitsLength(items, s, pos, ends);
    if i > 0 {
      FitsChunk(items[1..], s, ends[0], ends[1..], i - 1);
    }
  }

  /** The converse. */
  lemma {:induction false} ChunksFit(items: seq<Item>, s: string, pos: nat, ends: seq<nat>)
    requires |ends| == |items|
    requires forall i: nat :: i < |items| ==> ChunkAt(items, s, pos, ends, i)
    ensures Fits(items, s, pos, ends)
  {
    if items != [] {
      assert ChunkAt(items, s, pos, ends, 0);
      forall i: nat | i < |items[1..]|
        ensures ChunkAt(items[1..], s, ends[0], ends[1..], i)
      {
        assert ChunkAt(items, s, pos, ends, i + 1);
      }
      ChunksFit(items[1..], s, ends[0], ends[1..]);
    }
  }

  /** If a match differs from the greediest one only in the last item, that item is longer there. */
  lemma {:induction false} GreedierLast(a: seq<nat>, b: seq<nat>)
    requires |a| == |b| > 0 && Greedier(a, b) && a[..|a| - 1] == b[..|b| - 1]
    ensures a[|a| - 1] >= b[|b| - 1]
  {
    if |a| > 1 {
      assert a[0] == a[..|a| - 1][0] && b[0] == b[..|b| - 1][0];
      assert a[1..][..|a| - 2] == a[..|a| - 1][1..] && b[1..][..|b| - 2] == b[..|b| - 1][1..];
      GreedierLast(a[1..], b[1..]);
    }
  }
}

/** Text made of tokens separated by single spaces. */
module Tokens {
  import opened Regex

  predicate IsToken(t: string)
  {
    t != "" && forall c <- t :: !IsSpace(c)
  }

  predicate AreTokens(ts: seq<string>)
  {
    ts != [] && forall i :: 0 <= i < |ts| ==> IsToken(ts[i])
  }

  function Join(ts: seq<string>): string
    requires ts != []
  {
    if |ts| == 1 then ts[0] else Join(ts[..|ts| - 1]) + " " + ts[|ts| - 1]
  }

  /** Where the i-th token starts and ends in the joined text. */
  function Start(ts: seq<string>, i: nat): nat
    requires i <= |ts|
  {
    if i == 0 then 0 else Start(ts, i - 1) + |ts[i - 1]| + 1
  }

  function End(ts: seq<string>, i: nat): nat
    requires i < |ts|
  {
    Start(ts, i) + |ts[i]|
  }

  lemma {:induction false} StartPrefix(ts: seq<string>, n: nat, i: nat)
    requires i <= n <= |ts|
    ensures Start(ts[..n], i) == Start(ts, i)
  {
    if i > 0 {
      StartPrefix(ts, n, i - 1);
    }
  }

  lemma {:induction false} JoinLength(ts: seq<string>)
    requires ts != []
    ensures |Join(ts)| == End(ts, |ts| - 1)
  {
    if |ts| > 1 {
      JoinLength(ts[..|ts| - 1]);
      StartPrefix(ts, |ts| - 1, |ts| - 2);
    }
  }

  lemma {:induction false} JoinConcat(a: seq<string>, b: seq<string>)
    requires a != [] && b != []
    ensures Join(a + b) == Join(a) + " " + Join(b)
    decreases |b|
  {
    var n := |b| - 1;
    if n == 0 {
      assert (a + b)[..|a|] == a;
    } else {
      assert (a + b)[..|a + b| - 1] == a + b[..n];
      JoinConcat(a, b[..n]);
    }
  }

  /** The joined text up to the end of token j - 1, and the space behind it. */
  lemma PrefixJoin(ts: seq<string>, j: nat)
    requires 0 < j <= |ts|
    ensures End(ts, j - 1) <= |Join(ts)| && Join(ts)[..End(ts, j - 1)] == Join(ts[..j])
    ensures j < |ts| ==> End(ts, j - 1) < |Join(ts)| && Join(ts)[End(ts, j - 1)] == ' '
  {
    JoinLength(ts[..j]);
    StartPrefix(ts, j, j - 1);
    if j < |ts| {
      assert ts == ts[..j] + ts[j..];
      JoinConcat(ts[..j], ts[j..]);
    } else {
      assert ts[..j] == ts;
    }
  }

  /** The joined text from the start of token i on. */
  lemma SuffixJoin(ts: seq<string>, i: nat)
    requires i < |ts|
    ensures Start(ts, i) <= |Join(ts)| && Join(ts)[Start(ts, i)..] == Join(ts[i..])
  {
    if i == 0 {
      assert ts[i..] == ts;
    } else {
      assert ts == ts[..i] + ts[i..];
      JoinConcat(ts[..i], ts[i..]);
      JoinLength(ts[..i]);
      StartPrefix(ts, i, i - 1);
    }
  }

  /** The text from token `i` up to token `j` is those tokens joined. */
  lemma SliceIsJoin(ts: seq<string>, i: nat, j: nat)
    requires i < j <= |ts|
    ensures Start(ts, i) <= End(ts, j - 1) <= |Join(ts)|
    ensures Join(ts)[Start(ts, i)..End(ts, j - 1)] == Join(ts[i..j])
  {
    PrefixJoin(ts, j);
    SuffixJoin(ts[..j], i);
    StartPrefix(ts, j, i);
    assert ts[..j][i..] == ts[i..j];
    SliceTwice(Join(ts), Start(ts, i), End(ts, j - 1));
  }

  lemma SliceTwice(s: string, lo: nat, hi: nat)
    requires lo <= hi <= |s|
    ensures s[lo..hi] == s[..hi][lo..]
  {
  }

  lemma TokenAt(ts: seq<string>, i: nat)
    requires i < |ts|
    ensures End(ts, i) <= |Join(ts)| && Join(ts)[Start(ts, i)..End(ts, i)] == ts[i]
    ensures i + 1 < |ts| ==> End(ts, i) < |Join(ts)| && Join(ts)[End(ts, i)] == ' '
  {
    SliceIsJoin(ts, i, i + 1);
    PrefixJoin(ts, i + 1);
    assert ts[i..i + 1] == [ts[i]];
  }

  lemma {:induction false} Ordered(ts: seq<string>, i: nat, j: nat)
    requires i < j < |ts|
    ensures End(ts, i) < Start(ts, j) <= End(ts, j)
  {
    if i + 1 < j {
      Ordered(ts, i, j - 1);
    }
  }

  /** A space in the joined text ends a token that is not the last. */
  lemma {:induction false} SpaceEndsToken(ts: seq<string>, p: nat) returns (i: nat)
    requires AreTokens(ts) && p < |Join(ts)| && IsSpace(Join(ts)[p])
    ensures i + 1 < |ts| && p == End(ts, i)
  {
    var n := |ts| - 1;
    if n == 0 {
      assert false;
    } else {
      JoinLength(ts[..n]);
      StartPrefix(ts, n, n - 1);
      var m := |Join(ts[..n])|;
      if p < m {
        i := SpaceEndsToken(ts[..n], p);
        StartPrefix(ts, n, i);
      } else if p == m {
        i := n - 1;
      } else {
        assert false;
      }
    }
  }

  /** Spaces are single: a run of them is the gap between two tokens. */
  lemma SpaceRunIsGap(ts: seq<string>, lo: nat, hi: nat) returns (i: nat)
    requires AreTokens(ts) && Chunk(SpaceRun, Join(ts), lo, hi)
    ensures i + 1 < |ts| && lo == End(ts, i) && hi == Start(ts, i + 1)
  {
    i := SpaceEndsToken(ts, lo);
    if hi > lo + 1 {
      var j := SpaceEndsToken(ts, lo + 1);
      assert ts[i + 1] != "";
      if j <= i {
        if j < i { Ordered(ts, j, i); }
      } else {
        if i + 1 < j { Ordered(ts, i + 1, j); }
      }
    }
  }

  /** A literal word between two gaps is a whole token. */
  lemma WordIsToken(ts: seq<string>, word: string, i: nat, j: nat)
    requires AreTokens(ts) && IsToken(word) && i < |ts| && j < |ts|
    requires Chunk(Literal(word), Join(ts), Start(ts, i), End(ts, j))
    ensures i == j && ts[i] == word
  {
    if j < i {
      Ordered(ts, j, i);
    } else if i < j {
      Ordered(ts, i, j);
      TokenAt(ts, i);
      CharOfSlice(Join(ts), Start(ts, i), End(ts, j), End(ts, i));
    } else {
      TokenAt(ts, i);
    }
  }

  lemma CharOfSlice(s: string, lo: nat, hi: nat, p: nat)
    requires lo <= p < hi <= |s|
    ensures s[p] in s[lo..hi]
  {
    assert s[lo..hi][p - lo] == s[p];
  }
}

/** IPFilterRule texts (section 4.3.1 of RFC 6733) and the flow descriptions made of them. */
module FlowParser {
  import opened Prelude
  import opened Text
  import opened Regex
  import opened Tokens

  /** (.+)\s+(.+)\s+(.+)\s+from\s+(.+)\s+to\s+(.+) */
  const PATTERN: seq<Item> := [AnyRun, SpaceRun, AnyRun, SpaceRun, AnyRun, SpaceRun, Literal("from"), SpaceRun,
                               AnyRun, SpaceRun, Literal("to"), SpaceRun, AnyRun]

  datatype Action = Permit | Deny
  datatype Direction = Uplink | Downlink
  datatype IpAddress = IpAddress(v6: bool, address: string)

  const IPPROTO_IP := 0
  const IPPROTO_TCP := 6
  const IPPROTO_UDP := 17

  /** The keys of FlowMatch_IPProto_name. */
  const KNOWN_PROTOCOLS: set<int> := {0, 1, 2, 6, 17, 43, 44, 47, 51, 58, 59, 60, 89, 112, 132}

  datatype Flow = Flow(action: Action, direction: Direction, proto: int,
                       src: Option<IpAddress>, dst: Option<IpAddress>,
                       tcpSrc: nat, tcpDst: nat, udpSrc: nat, udpDst: nat)

  /** An empty ip stands for "any". */
  datatype Address = Address(ip: string, v6: bool, port: nat)

  const INT64_LIMIT: int := 0x8000_0000_0000_0000
  const UINT32_LIMIT: int := 0x1_0000_0000

  /** strconv.Atoi. */
  function Atoi(s: string): Result<int>
  {
    var signed := s != "" && (s[0] == '+' || s[0] == '-');
    var digits := if signed then s[1..] else s;
    if digits == "" || !AllDigits(digits) then Err
    else
      var v: int := if signed && s[0] == '-' then 0 - DecimalValue(digits) else DecimalValue(digits);
      if -INT64_LIMIT <= v < INT64_LIMIT then Ok(v) else Err
  }

  /** int32(v). */
  function ToInt32(v: int): int
  {
    (v + UINT32_LIMIT / 2) % UINT32_LIMIT - UINT32_LIMIT / 2
  }

  function ParseAction(s: string): Result<Action>
  {
    if s == "permit" then Ok(Permit) else if s == "deny" then Ok(Deny) else Err
  }

  function ParseDirection(s: string): Result<Direction>
  {
    if s == "in" then Ok(Uplink) else if s == "out" then Ok(Downlink) else Err
  }

  /** A number whose int32 has no name yields IPPROTO_IP and no error: the error returned there is nil. */
  function ParseProto(s: string): Result<int>
  {
    if s == "ip" then Ok(IPPROTO_IP)
    else match Atoi(s)
      case Err => Err
      case Ok(v) => if ToInt32(v) in KNOWN_PROTOCOLS then Ok(ToInt32(v)) else Ok(IPPROTO_IP)
  }

  function Count(s: string, c: char): nat
  {
    if s == "" then 0 else (if s[0] == c then 1 else 0) + Count(s[1..], c)
  }

  function ParseAddress(s: string): Result<Address>
  {
    var parts := Split(s, ' ');
    var v6 := Count(parts[0], ':') >= 2;
    if parts[0] == "any" then Ok(Address("", false, 0))
    else if |parts| < 2 then Ok(Address(parts[0], v6, 0))
    else match Atoi(parts[1])
      case Err => Err
      case Ok(p) => Ok(Address(parts[0], v6, p % UINT32_LIMIT))
  }

  function IpOf(a: Address): Option<IpAddress>
  {
    if a.ip == "" then None else Some(IpAddress(a.v6, a.ip))
  }

  function BuildFlow(action: Action, direction: Direction, proto: int, src: Address, dst: Address): Flow
  {
    var tcp, udp := proto == IPPROTO_TCP, proto == IPPROTO_UDP;
    Flow(action, direction, proto, IpOf(src), IpOf(dst),
         if tcp then src.port else 0, if tcp then dst.port else 0,
         if udp then src.port else 0, if udp then dst.port else 0)
  }

  function FlowFromGroups(g: seq<string>): Result<Flow>
    requires |g| == 5
  {
    match (ParseAction(g[0]), ParseDirection(g[1]), ParseProto(g[2]), ParseAddress(g[3]), ParseAddress(g[4]))
    case (Ok(action), Ok(direction), Ok(proto), Ok(src), Ok(dst)) => Ok(BuildFlow(action, direction, proto, src, dst))
    case _ => Err
  }

  /** The cuts give each item of the pattern a chunk. */
  predicate Chunked(s: string, start: nat, ends: seq<nat>)
  {
    |ends| == 13 && forall i: nat :: i < 13 ==> ChunkAt(PATTERN, s, start, ends, i)
  }

  lemma FitsIsChunked(s: string, start: nat, ends: seq<nat>)
    requires Fits(PATTERN, s, start, ends)
    ensures Chunked(s, start, ends)
  {
    FitsLength(PATTERN, s, start, ends);
    forall i: nat | i < 13
      ensures ChunkAt(PATTERN, s, start, ends, i)
    {
      FitsChunk(PATTERN, s, start, ends, i);
    }
  }

  predicate Nested(s: string, start: nat, ends: seq<nat>)
  {
    && |ends| == 13
    && start <= ends[0] <= ends[1] <= ends[2] <= ends[3] <= ends[4] <= ends[5] <= ends[6]
    && ends[6] <= ends[7] <= ends[8] <= ends[9] <= ends[10] <= ends[11] <= ends[12] <= |s|
  }

  lemma ChunkedIsNested(s: string, start: nat, ends: seq<nat>)
    requires Chunked(s, start, ends)
    ensures Nested(s, start, ends)
  {
    forall i: nat | i < 13
      ensures (if i == 0 then start else ends[i - 1]) <= ends[i] <= |s|
    {
      assert ChunkAt(PATTERN, s, start, ends, i);
    }
    assert ChunkAt(PATTERN, s, start, ends, 0);
  }

  /** The five groups of a match: what its items 0, 2, 4, 8 and 12 took. */
  function Groups(s: string, start: nat, ends: seq<nat>): seq<string>
    requires Nested(s, start, ends)
  {
    [s[start..ends[0]], s[ends[1]..ends[2]], s[ends[3]..ends[4]], s[ends[7]..ends[8]], s[ends[11]..ends[12]]]
  }

  function TokenizeString(s: string): (r: Result<seq<string>>)
    ensures r.Ok? ==> |r.value| == 5
  {
    match FindFrom(PATTERN, s, 0)
    case None => Err
    case Some((start, ends)) =>
      FitsIsChunked(s, start, ends);
      ChunkedIsNested(s, start, ends);
      Ok(Groups(s, start, ends))
  }

  function ParseFlow(s: string): Result<Flow>
  {
    match TokenizeString(s) case Err => Err case Ok(g) => FlowFromGroups(g)
  }

  // Splitting canonical text

  /** action direction proto from <src tokens> to <dst tokens>, with `to` at position m. */
  predicate Descriptor(ts: seq<string>, m: nat)
  {
    && AreTokens(ts) && 5 <= m < |ts| - 1 && ts[3] == "from" && ts[m] == "to"
    && (forall i :: 0 <= i < |ts| && i != 3 ==> ts[i] != "from")
    && (forall i :: 3 < i < |ts| && i != m ==> ts[i] != "to")
  }

  /** The only cuts the pattern allows, the last group reaching the end. */
  function Cuts(ts: seq<string>, m: nat): seq<nat>
    requires 5 <= m < |ts| - 1
  {
    [End(ts, 0), Start(ts, 1), End(ts, 1), Start(ts, 2), End(ts, 2), Start(ts, 3), End(ts, 3), Start(ts, 4),
     End(ts, m - 1), Start(ts, m), End(ts, m), Start(ts, m + 1), End(ts, |ts| - 1)]
  }

  /** A literal between two runs of spaces is a token of the text. */
  lemma LiteralCut(ts: seq<string>, ends: seq<nat>, i: nat, word: string) returns (k: nat)
    requires AreTokens(ts) && IsToken(word) && Chunked(Join(ts), 0, ends)
    requires 2 <= i < 12 && PATTERN[i - 1] == SpaceRun && PATTERN[i] == Literal(word) && PATTERN[i + 1] == SpaceRun
    ensures 0 < k < |ts| - 1 && ts[k] == word
    ensures ends[i - 2] == End(ts, k - 1) && ends[i - 1] == Start(ts, k)
    ensures ends[i] == End(ts, k) && ends[i + 1] == Start(ts, k + 1)
  {
    assert ChunkAt(PATTERN, Join(ts), 0, ends, i - 1);
    assert ChunkAt(PATTERN, Join(ts), 0, ends, i);
    assert ChunkAt(PATTERN, Join(ts), 0, ends, i + 1);
    var a := SpaceRunIsGap(ts, ends[i - 2], ends[i - 1]);
    var b := SpaceRunIsGap(ts, ends[i], ends[i + 1]);
    k := a + 1;
    WordIsToken(ts, word, k, b);
  }

  lemma EndsOrdered(ts: seq<string>, i: nat, j: nat)
    requires i < |ts| && j < |ts| && End(ts, i) < End(ts, j)
    ensures i < j
  {
    if j < i {
      Ordered(ts, j, i);
    }
  }

  /** `from` can only be matched at its token. */
  lemma FromCut(ts: seq<string>, m: nat, ends: seq<nat>)
    requires Descriptor(ts, m) && Chunked(Join(ts), 0, ends)
    ensures ends[4] == End(ts, 2) && ends[5] == Start(ts, 3) && ends[6] == End(ts, 3) && ends[7] == Start(ts, 4)
  {
    var f := LiteralCut(ts, ends, 6, "from");
  }

  /** `to`, which comes later, can only be matched at its token. */
  lemma ToCut(ts: seq<string>, m: nat, ends: seq<nat>)
    requires Descriptor(ts, m) && Chunked(Join(ts), 0, ends) && ends[7] == Start(ts, 4)
    ensures ends[8] == End(ts, m - 1) && ends[9] == Start(ts, m) && ends[10] == End(ts, m) && ends[11] == Start(ts, m + 1)
  {
    var t := LiteralCut(ts, ends, 10, "to");
    assert ChunkAt(PATTERN, Join(ts), 0, ends, 8);
    if t <= 3 {
      Ordered(ts, t - 1, 4);
      assert false;
    }
  }

  /** The two gaps before the last group in front of `from` are the first two. */
  lemma HeadCut(ts: seq<string>, ends: seq<nat>)
    requires AreTokens(ts) && |ts| > 2 && Chunked(Join(ts), 0, ends) && ends[4] == End(ts, 2)
    ensures ends[0] == End(ts, 0) && ends[1] == Start(ts, 1) && ends[2] == End(ts, 1) && ends[3] == Start(ts, 2)
  {
    HeadItems(Join(ts), ends);
    FirstGaps(ts, ends[0], ends[1], ends[2], ends[3]);
  }

  lemma HeadItems(s: string, ends: seq<nat>)
    requires Chunked(s, 0, ends)
    ensures Chunk(SpaceRun, s, ends[0], ends[1]) && ends[1] < ends[2]
    ensures Chunk(SpaceRun, s, ends[2], ends[3]) && ends[3] < ends[4]
  {
    SpaceItem(s, ends, 1);
    AnyItem(s, ends, 2);
    SpaceItem(s, ends, 3);
    AnyItem(s, ends, 4);
  }

  lemma SpaceItem(s: string, ends: seq<nat>, i: nat)
    requires Chunked(s, 0, ends) && 0 < i < 13 && PATTERN[i] == SpaceRun
    ensures Chunk(SpaceRun, s, ends[i - 1], ends[i])
  {
    assert ChunkAt(PATTERN, s, 0, ends, i);
  }

  lemma AnyItem(s: string, ends: seq<nat>, i: nat)
    requires Chunked(s, 0, ends) && 0 < i < 13 && PATTERN[i] == AnyRun
    ensures ends[i - 1] < ends[i]
  {
    assert ChunkAt(PATTERN, s, 0, ends, i);
  }

  lemma FirstGaps(ts: seq<string>, a: nat, b: nat, c: nat, d: nat)
    requires AreTokens(ts) && |ts| > 2
    requires Chunk(SpaceRun, Join(ts), a, b) && b < c && Chunk(SpaceRun, Join(ts), c, d) && d < End(ts, 2)
    ensures a == End(ts, 0) && b == Start(ts, 1) && c == End(ts, 1) && d == Start(ts, 2)
  {
    var i, j := GapsInOrder(ts, a, b, c, d, 2);
    assert i == 0 && j == 1;
  }

  /** Two gaps in a row before the end of token `k` come after two different earlier tokens. */
  lemma GapsInOrder(ts: seq<string>, a: nat, b: nat, c: nat, d: nat, k: nat) returns (i: nat, j: nat)
    requires AreTokens(ts) && k < |ts|
    requires Chunk(SpaceRun, Join(ts), a, b) && b < c && Chunk(SpaceRun, Join(ts), c, d) && d < End(ts, k)
    ensures i < j < k && a == End(ts, i) && b == Start(ts, i + 1) && c == End(ts, j) && d == Start(ts, j + 1)
  {
    i := SpaceRunIsGap(ts, a, b);
    j := SpaceRunIsGap(ts, c, d);
    EndsOrdered(ts, i, j);
    EndsOrdered(ts, j, k);
  }

  /** The groups are unique up to the end of the last one. */
  lemma CutsAreUnique(ts: seq<string>, m: nat, ends: seq<nat>)
    requires Descriptor(ts, m) && Fits(PATTERN, Join(ts), 0, ends)
    ensures |ends| == 13 && ends[..12] == Cuts(ts, m)[..12] && ends[12] <= |Join(ts)|
  {
    FitsIsChunked(Join(ts), 0, ends);
    ChunkedCuts(ts, m, ends);
  }

  lemma ChunkedCuts(ts: seq<string>, m: nat, ends: seq<nat>)
    requires Descriptor(ts, m) && Chunked(Join(ts), 0, ends)
    ensures ends[..12] == Cuts(ts, m)[..12] && ends[12] <= |Join(ts)|
  {
    FromCut(ts, m, ends);
    ToCut(ts, m, ends);
    HeadCut(ts, ends);
    SamePrefix(ends, Cuts(ts, m));
    assert ChunkAt(PATTERN, Join(ts), 0, ends, 12);
  }

  lemma SamePrefix(a: seq<nat>, b: seq<nat>)
    requires |a| == |b| == 13
    requires a[0] == b[0] && a[1] == b[1] && a[2] == b[2] && a[3] == b[3] && a[4] == b[4] && a[5] == b[5]
    requires a[6] == b[6] && a[7] == b[7] && a[8] == b[8] && a[9] == b[9] && a[10] == b[10] && a[11] == b[11]
    ensures a[..12] == b[..12]
  {
  }

  lemma NoNewline(ts: seq<string>, p: nat)
    requires AreTokens(ts) && p < |Join(ts)|
    ensures Join(ts)[p] != '\n'
  {
    if Join(ts)[p] == '\n' {
      var i := SpaceEndsToken(ts, p);
      TokenAt(ts, i);
    }
  }

  lemma GapChunk(ts: seq<string>, i: nat)
    requires i + 1 < |ts|
    ensures Chunk(SpaceRun, Join(ts), End(ts, i), Start(ts, i + 1))
  {
    TokenAt(ts, i);
  }

  lemma RunChunk(ts: seq<string>, i: nat, j: nat)
    requires AreTokens(ts) && i <= j < |ts|
    ensures Chunk(AnyRun, Join(ts), Start(ts, i), End(ts, j))
  {
    SliceIsJoin(ts, i, j + 1);
    if i < j { Ordered(ts, i, j); }
    forall p | Start(ts, i) <= p < End(ts, j)
      ensures Takes(AnyRun, Join(ts)[p])
    {
      NoNewline(ts, p);
    }
  }

  /** Each cut ends what its item can match. */
  lemma HeadChunk(ts: seq<string>, m: nat, i: nat)
    requires Descriptor(ts, m) && i < 6
    ensures ChunkAt(PATTERN, Join(ts), 0, Cuts(ts, m), i)
  {
    if i % 2 == 0 { RunChunk(ts, i / 2, i / 2); } else { GapChunk(ts, i / 2); }
  }

  lemma WordChunk(ts: seq<string>, i: nat)
    requires i < |ts|
    ensures Chunk(Literal(ts[i]), Join(ts), Start(ts, i), End(ts, i))
  {
    TokenAt(ts, i);
  }

  lemma FromWordChunk(ts: seq<string>, m: nat)
    requires Descriptor(ts, m)
    ensures ChunkAt(PATTERN, Join(ts), 0, Cuts(ts, m), 6)
  {
    WordChunk(ts, 3);
  }

  lemma FromGapChunk(ts: seq<string>, m: nat)
    requires Descriptor(ts, m)
    ensures ChunkAt(PATTERN, Join(ts), 0, Cuts(ts, m), 7)
  {
    GapChunk(ts, 3);
  }

  lemma SourceChunk(ts: seq<string>, m: nat, i: nat)
    requires Descriptor(ts, m) && 8 <= i < 10
    ensures ChunkAt(PATTERN, Join(ts), 0, Cuts(ts, m), i)
  {
    if i == 8 { RunChunk(ts, 4, m - 1); } else { GapChunk(ts, m - 1); }
  }

  lemma TailChunk(ts: seq<string>, m: nat, i: nat)
    requires Descriptor(ts, m) && 10 <= i < 13
    ensures ChunkAt(PATTERN, Join(ts), 0, Cuts(ts, m), i)
  {
    if i == 10 { WordChunk(ts, m); }
    else if i == 11 { GapChunk(ts, m); }
    else { RunChunk(ts, m + 1, |ts| - 1); }
  }

  lemma CutsFit(ts: seq<string>, m: nat)
    requires Descriptor(ts, m)
    ensures Fits(PATTERN, Join(ts), 0, Cuts(ts, m))
  {
    forall i: nat | i < |PATTERN|
      ensures ChunkAt(PATTERN, Join(ts), 0, Cuts(ts, m), i)
    {
      if i < 6 { HeadChunk(ts, m, i); }
      else if i == 6 { FromWordChunk(ts, m); }
      else if i == 7 { FromGapChunk(ts, m); }
      else if i < 10 { SourceChunk(ts, m, i); }
      else { TailChunk(ts, m, i); }
    }
    ChunksFit(PATTERN, Join(ts), 0, Cuts(ts, m));
  }

  /** The matcher finds exactly those cuts. */
  lemma DescriptorMatches(ts: seq<string>, m: nat)
    requires Descriptor(ts, m)
    ensures MatchAt(PATTERN, Join(ts), 0) == Some(Cuts(ts, m))
  {
    var s, cuts := Join(ts), Cuts(ts, m);
    CutsFit(ts, m);
    MatchIsGreediest(PATTERN, s, 0, cuts);
    MatchIsSound(PATTERN, s, 0);
    var ends := MatchAt(PATTERN, s, 0).value;
    CutsAreUnique(ts, m, ends);
    GreedierLast(ends, cuts);
    JoinLength(ts);
    assert ends == ends[..12] + [ends[12]] && cuts == cuts[..12] + [cuts[12]];
  }

  lemma GroupsAre(s: string, ends: seq<nat>, g: seq<string>)
    requires Nested(s, 0, ends) && |g| == 5
    requires s[0..ends[0]] == g[0] && s[ends[1]..ends[2]] == g[1] && s[ends[3]..ends[4]] == g[2]
    requires s[ends[7]..ends[8]] == g[3] && s[ends[11]..ends[12]] == g[4]
    ensures Groups(s, 0, ends) == g
  {
  }

  /** The matcher cuts the groups at the bounds of their tokens. */
  lemma CutAtTokens(ts: seq<string>, m: nat) returns (ends: seq<nat>)
    requires Descriptor(ts, m)
    ensures MatchAt(PATTERN, Join(ts), 0) == Some(ends) && |ends| == 13
    ensures ends[0] == End(ts, 0) && ends[1] == Start(ts, 1) && ends[2] == End(ts, 1)
    ensures ends[3] == Start(ts, 2) && ends[4] == End(ts, 2)
    ensures ends[7] == Start(ts, 4) && ends[8] == End(ts, m - 1)
    ensures ends[11] == Start(ts, m + 1) && ends[12] == End(ts, |ts| - 1)
  {
    DescriptorMatches(ts, m);
    ends := Cuts(ts, m);
  }

  lemma HeadGroups(ts: seq<string>)
    requires |ts| > 2
    ensures Start(ts, 0) == 0 && End(ts, 0) <= |Join(ts)| && Join(ts)[0..End(ts, 0)] == ts[0]
    ensures Start(ts, 1) <= End(ts, 1) <= |Join(ts)| && Join(ts)[Start(ts, 1)..End(ts, 1)] == ts[1]
    ensures Start(ts, 2) <= End(ts, 2) <= |Join(ts)| && Join(ts)[Start(ts, 2)..End(ts, 2)] == ts[2]
  {
    TokenAt(ts, 0);
    TokenAt(ts, 1);
    TokenAt(ts, 2);
  }

  lemma TailGroups(ts: seq<string>, m: nat)
    requires 5 <= m < |ts| - 1
    ensures Start(ts, 4) <= End(ts, m - 1) <= |Join(ts)| && Join(ts)[Start(ts, 4)..End(ts, m - 1)] == Join(ts[4..m])
    ensures Start(ts, m + 1) <= End(ts, |ts| - 1) <= |Join(ts)|
    ensures Join(ts)[Start(ts, m + 1)..End(ts, |ts| - 1)] == Join(ts[m + 1..|ts|])
  {
    SliceIsJoin(ts, 4, m);
    SliceIsJoin(ts, m + 1, |ts|);
  }

  /** The text between such cuts is the tokens between them. */
  lemma TokenGroups(ts: seq<string>, m: nat, ends: seq<nat>)
    requires 5 <= m < |ts| - 1 && Nested(Join(ts), 0, ends)
    requires ends[0] == End(ts, 0) && ends[1] == Start(ts, 1) && ends[2] == End(ts, 1)
    requires ends[3] == Start(ts, 2) && ends[4] == End(ts, 2)
    requires ends[7] == Start(ts, 4) && ends[8] == End(ts, m - 1)
    requires ends[11] == Start(ts, m + 1) && ends[12] == End(ts, |ts| - 1)
    ensures Groups(Join(ts), 0, ends) == [ts[0], ts[1], ts[2], Join(ts[4..m]), Join(ts[m + 1..|ts|])]
  {
    HeadGroups(ts);
    TailGroups(ts, m);
    GroupsAre(Join(ts), ends, [ts[0], ts[1], ts[2], Join(ts[4..m]), Join(ts[m + 1..|ts|])]);
  }

  lemma DescriptorGroups(ts: seq<string>, m: nat)
    requires Descriptor(ts, m)
    ensures TokenizeString(Join(ts)) == Ok([ts[0], ts[1], ts[2], Join(ts[4..m]), Join(ts[m + 1..])])
  {
    var ends := CutAtTokens(ts, m);
    MatchIsSound(PATTERN, Join(ts), 0);
    FitsIsChunked(Join(ts), 0, ends);
    ChunkedIsNested(Join(ts), 0, ends);
    TokenGroups(ts, m, ends);
    assert ts[m + 1..|ts|] == ts[m + 1..];
  }

  // Parsing canonical rules

  datatype Endpoint = AnyEndpoint | Host(ip: string, port: Option<nat>)

  datatype Protocol = Ip | Number(n: nat)

  datatype Rule = Rule(action: Action, direction: Direction, protocol: Protocol, src: Endpoint, dst: Endpoint)

  predicate ValidEndpoint(e: Endpoint)
  {
    e.Host? ==>
      && IsToken(e.ip) && e.ip != "from" && e.ip != "to" && e.ip != "any"
      && (e.port.Some? ==> e.port.value < INT64_LIMIT)
  }

  predicate ValidRule(r: Rule)
  {
    && ValidEndpoint(r.src) && ValidEndpoint(r.dst)
    && (r.protocol.Number? ==> r.protocol.n < INT64_LIMIT)
  }

  function EndpointTokens(e: Endpoint): seq<string>
  {
    match e
    case AnyEndpoint => ["any"]
    case Host(ip, None) => [ip]
    case Host(ip, Some(p)) => [ip, Decimal(p)]
  }

  function RuleTokens(r: Rule): seq<string>
  {
    [ActionToken(r.action), DirectionToken(r.direction), ProtocolToken(r.protocol), "from"]
    + EndpointTokens(r.src) + ["to"] + EndpointTokens(r.dst)
  }

  /** The rule as text. */
  function Render(r: Rule): string
  {
    Join(RuleTokens(r))
  }

  /** At least two colons. */
  predicate LooksV6(ip: string)
  {
    exists i, j :: 0 <= i < j < |ip| && ip[i] == ':' && ip[j] == ':'
  }

  function HostAddress(e: Endpoint): Option<IpAddress>
  {
    if e.Host? then Some(IpAddress(LooksV6(e.ip), e.ip)) else None
  }

  /** The port as an unsigned 32-bit number; none is 0. */
  function PortOf(e: Endpoint): nat
  {
    if e.Host? && e.port.Some? then e.port.value % UINT32_LIMIT else 0
  }

  /** What the rule means, field by field, without going through text. */
  predicate Means(f: Flow, r: Rule)
  {
    && f.action == r.action && f.direction == r.direction && f.proto == ProtocolNumber(r.protocol)
    && f.src == HostAddress(r.src) && f.dst == HostAddress(r.dst)
    && f.tcpSrc == (if f.proto == 6 then PortOf(r.src) else 0) && f.tcpDst == (if f.proto == 6 then PortOf(r.dst) else 0)
    && f.udpSrc == (if f.proto == 17 then PortOf(r.src) else 0) && f.udpDst == (if f.proto == 17 then PortOf(r.dst) else 0)
  }

  function ProtocolNumber(p: Protocol): int
  {
    match p
    case Ip => IPPROTO_IP
    case Number(n) => if ToInt32(n) in KNOWN_PROTOCOLS then ToInt32(n) else IPPROTO_IP
  }

  predicate MeansAddress(a: Address, e: Endpoint)
  {
    && (e.AnyEndpoint? ==> a.ip == "")
    && (e.Host? ==> a.ip == e.ip && a.ip != "" && (a.v6 <==> LooksV6(e.ip)))
    && a.port == PortOf(e)
  }

  lemma {:induction false} CountPositive(s: string, c: char)
    ensures Count(s, c) >= 1 <==> exists i :: 0 <= i < |s| && s[i] == c
  {
    if s != "" {
      CountPositive(s[1..], c);
      if i :| 0 <= i < |s[1..]| && s[1..][i] == c {
        assert s[i + 1] == c;
      }
      if i :| 0 < i < |s| && s[i] == c {
        assert s[1..][i - 1] == c;
      }
    }
  }

  lemma {:induction false} CountTwo(s: string)
    ensures Count(s, ':') >= 2 <==> LooksV6(s)
  {
    if s != "" {
      CountTwo(s[1..]);
      CountPositive(s[1..], ':');
      if i, j :| 0 <= i < j < |s[1..]| && s[1..][i] == ':' && s[1..][j] == ':' {
        assert s[i + 1] == ':' && s[j + 1] == ':';
      }
      if i, j :| 0 <= i < j < |s| && s[i] == ':' && s[j] == ':' {
        assert s[1..][j - 1] == ':';
        if i > 0 {
          assert s[1..][i - 1] == ':';
        }
      }
      if s[0] == ':' {
        if j :| 0 <= j < |s[1..]| && s[1..][j] == ':' {
          assert s[0] == ':' && s[j + 1] == ':';
        }
      }
    }
  }

  lemma AtoiReadsBack(n: nat)
    requires n < INT64_LIMIT
    ensures Atoi(Decimal(n)) == Ok(n)
  {
    DecimalReadsBack(n);
    assert Decimal(n)[0] in Decimal(n);
  }

  lemma DecimalIsToken(n: nat)
    ensures IsToken(Decimal(n)) && Decimal(n) != "from" && Decimal(n) != "to" && Decimal(n) != "ip"
  {
    DigitsLack(Decimal(n), 'f');
    DigitsLack(Decimal(n), 't');
    DigitsLack(Decimal(n), 'i');
  }

  lemma EndpointTokensAreTokens(e: Endpoint)
    requires ValidEndpoint(e)
    ensures AreTokens(EndpointTokens(e))
    ensures forall t <- EndpointTokens(e) :: t != "from" && t != "to"
  {
    if e.Host? && e.port.Some? {
      DecimalIsToken(e.port.value);
    }
  }

  lemma EndpointReadsBack(e: Endpoint)
    requires ValidEndpoint(e)
    ensures var a := ParseAddress(Join(EndpointTokens(e)));
            a.Ok? && MeansAddress(a.value, e)
  {
    EndpointTokensAreTokens(e);
    match e {
      case AnyEndpoint => SplitWhole("any", ' ');
      case Host(ip, None) =>
        CountTwo(ip);
        SplitWhole(ip, ' ');
      case Host(ip, Some(p)) =>
        CountTwo(ip);
        DecimalIsToken(p);
        AtoiReadsBack(p);
        assert EndpointTokens(e)[..1] == [ip];
        assert Join(EndpointTokens(e)) == ip + [' '] + Decimal(p);
        SplitConcat(ip, ' ', Decimal(p));
        SplitWhole(ip, ' ');
        SplitWhole(Decimal(p), ' ');
    }
  }

  function ProtocolToken(p: Protocol): string
  {
    if p.Ip? then "ip" else Decimal(p.n)
  }

  lemma ProtocolReadsBack(p: Protocol)
    requires p.Number? ==> p.n < INT64_LIMIT
    ensures ParseProto(ProtocolToken(p)) == Ok(ProtocolNumber(p))
  {
    if p.Number? {
      AtoiReadsBack(p.n);
      DecimalIsToken(p.n);
    }
  }

  lemma RuleIsDescriptor(r: Rule)
    requires ValidRule(r)
    ensures Descriptor(RuleTokens(r), 4 + |EndpointTokens(r.src)|)
  {
    EndpointTokensAreTokens(r.src);
    EndpointTokensAreTokens(r.dst);
    if r.protocol.Number? {
      DecimalIsToken(r.protocol.n);
    }
    var ts, src, dst := RuleTokens(r), EndpointTokens(r.src), EndpointTokens(r.dst);
    var m := 4 + |src|;
    forall i | 0 <= i < |ts|
      ensures IsToken(ts[i]) && (i != 3 ==> ts[i] != "from") && (3 < i && i != m ==> ts[i] != "to")
    {
      if 4 <= i < m {
        assert ts[i] == src[i - 4] && src[i - 4] in src;
      } else if m < i {
        assert ts[i] == dst[i - m - 1] && dst[i - m - 1] in dst;
      }
    }
  }

  /**
   Parsing the text of any canonical rule gives exactly what the rule means: its
   action, direction, named protocol, addresses with IP version, and ports where
   the protocol has them.
   */
  lemma ParseInvertsRender(r: Rule)
    requires ValidRule(r)
    ensures ParseFlow(Render(r)).Ok? && Means(ParseFlow(Render(r)).value, r)
  {
    RuleGroups(r);
    EndpointReadsBack(r.src);
    EndpointReadsBack(r.dst);
    ProtocolReadsBack(r.protocol);
    GroupsGiveMeaning(r, Join(EndpointTokens(r.src)), Join(EndpointTokens(r.dst)));
  }

  function ActionToken(a: Action): string
  {
    if a.Permit? then "permit" else "deny"
  }

  function DirectionToken(d: Direction): string
  {
    if d.Uplink? then "in" else "out"
  }

  /** The regex groups of a rule's text are its five fields. */
  lemma RuleGroups(r: Rule)
    requires ValidRule(r)
    ensures TokenizeString(Render(r)) == Ok([ActionToken(r.action), DirectionToken(r.direction), ProtocolToken(r.protocol),
                                             Join(EndpointTokens(r.src)), Join(EndpointTokens(r.dst))])
  {
    var ts, src, dst := RuleTokens(r), EndpointTokens(r.src), EndpointTokens(r.dst);
    var m := 4 + |src|;
    RuleIsDescriptor(r);
    DescriptorGroups(ts, m);
    BothEndpoints(ts[..4], src, ["to"], dst);
    assert ts == ts[..4] + src + ["to"] + dst;
  }

  lemma BothEndpoints(head: seq<string>, src: seq<string>, sep: seq<string>, dst: seq<string>)
    requires |head| == 4 && |sep| == 1
    ensures (head + src + sep + dst)[4..4 + |src|] == src && (head + src + sep + dst)[4 + |src| + 1..] == dst
  {
  }

  lemma GroupsGiveMeaning(r: Rule, src: string, dst: string)
    requires ParseProto(ProtocolToken(r.protocol)) == Ok(ProtocolNumber(r.protocol))
    requires ParseAddress(src).Ok? && MeansAddress(ParseAddress(src).value, r.src)
    requires ParseAddress(dst).Ok? && MeansAddress(ParseAddress(dst).value, r.dst)
    ensures var f := FlowFromGroups([ActionToken(r.action), DirectionToken(r.direction), ProtocolToken(r.protocol), src, dst]);
            f.Ok? && Means(f.value, r)
  {
  }

  /** Named numbers survive the conversion to int32, and nothing beyond its range does. */
  lemma NamedStaysItself(n: nat)
    ensures n in KNOWN_PROTOCOLS ==> ToInt32(n) == n
    ensures ToInt32(n) == n ==> n < UINT32_LIMIT / 2
  {
  }

  /**
   A protocol number is kept exactly when it has a name. Any other becomes what
   its low 32 bits name, and IP when they name nothing: never an error.
   */
  lemma ProtocolKeptIff(n: nat)
    requires n < INT64_LIMIT
    ensures ParseProto(Decimal(n)) == Ok(n) <==> n in KNOWN_PROTOCOLS
    ensures ParseProto(Decimal(n)) == Ok(IPPROTO_IP) <==> ToInt32(n) !in KNOWN_PROTOCOLS || ToInt32(n) == IPPROTO_IP
    ensures ToInt32(n) in KNOWN_PROTOCOLS ==> ParseProto(Decimal(n)) == Ok(ToInt32(n))
  {
    ProtocolReadsBack(Number(n));
    NamedStaysItself(n);
    assert ProtocolToken(Number(n)) == Decimal(n);
  }

  /** Beyond the int64 range there is an error. */
  lemma HugeProtocolFails(n: nat)
    requires n >= INT64_LIMIT
    ensures ParseProto(Decimal(n)) == Err
  {
    DecimalReadsBack(n);
    DigitsLack(Decimal(n), 'i');
    assert 'i' in "ip" && Decimal(n)[0] in Decimal(n);
  }

  /** A number beyond 32 bits has no name, but is parsed as the protocol its low 32 bits name: 2^32 + 6 as TCP. */
  lemma WrappedProtocolIsRenamed(n: nat, p: nat)
    requires p in KNOWN_PROTOCOLS && UINT32_LIMIT <= n < INT64_LIMIT && n % UINT32_LIMIT == p
    ensures n !in KNOWN_PROTOCOLS && ParseProto(Decimal(n)) == Ok(p)
  {
    ProtocolKeptIff(n);
    WrapsTo(n, p);
  }

  lemma WrapsTo(n: nat, p: nat)
    requires p < UINT32_LIMIT / 2 && n % UINT32_LIMIT == p
    ensures ToInt32(n) == p
  {
  }

  lemma UnnamedBecomesTcp() returns (n: nat)
    ensures n == UINT32_LIMIT + IPPROTO_TCP && n !in KNOWN_PROTOCOLS && ParseProto(Decimal(n)) == Ok(IPPROTO_TCP)
  {
    n := UINT32_LIMIT + IPPROTO_TCP;
    WrappedProtocolIsRenamed(n, IPPROTO_TCP);
  }

  // The same on texts

  function EndpointText(e: Endpoint): string
  {
    if e.AnyEndpoint? then "any" else if e.port.None? then e.ip else e.ip + " " + Decimal(e.port.value)
  }

  lemma EndpointTextIs(e: Endpoint)
    ensures Join(EndpointTokens(e)) == EndpointText(e)
  {
    if e.Host? && e.port.Some? {
      assert EndpointTokens(e)[..1] == [e.ip];
    }
  }

  lemma JoinTwo(a: string, b: string)
    ensures Join([a, b]) == a + " " + b
  {
    assert [a, b][..1] == [a];
  }

  lemma JoinFour(a: string, b: string, c: string, d: string)
    ensures Join([a, b, c, d]) == a + " " + b + " " + (c + " " + d)
  {
    JoinTwo(a, b);
    JoinTwo(c, d);
    assert [a, b, c, d] == [a, b] + [c, d];
    JoinConcat([a, b], [c, d]);
  }

  lemma JoinRule(head: seq<string>, src: seq<string>, dst: seq<string>)
    requires head != [] && src != [] && dst != []
    ensures Join(head + src + ["to"] + dst) == Join(head) + " " + Join(src) + " " + "to" + " " + Join(dst)
  {
    JoinConcat(head, src);
    JoinConcat(head + src, ["to"]);
    JoinConcat(head + src + ["to"], dst);
  }

  /** What a canonical rule looks like. */
  lemma RenderIs(r: Rule)
    ensures Render(r) ==
            HeadText(if r.action == Permit then "permit" else "deny", if r.direction == Uplink then "in" else "out",
                     if r.protocol.Ip? then "ip" else Decimal(r.protocol.n))
            + " " + EndpointText(r.src) + " " + "to" + " " + EndpointText(r.dst)
  {
    var head := [ActionToken(r.action), DirectionToken(r.direction), ProtocolToken(r.protocol), "from"];
    JoinFour(head[0], head[1], head[2], head[3]);
    EndpointTextIs(r.src);
    EndpointTextIs(r.dst);
    JoinRule(head, EndpointTokens(r.src), EndpointTokens(r.dst));
  }

  function HeadText(action: string, direction: string, protocol: string): string
  {
    action + " " + direction + " " + (protocol + " " + "from")
  }

  /** Tokens are recovered by splitting at the spaces. */
  lemma {:induction false} SplitJoin(ts: seq<string>)
    requires AreTokens(ts)
    ensures Split(Join(ts), ' ') == ts
  {
    var n := |ts| - 1;
    assert ' ' !in ts[n];
    SplitWhole(ts[n], ' ');
    if n > 0 {
      SplitJoin(ts[..n]);
      assert Join(ts) == Join(ts[..n]) + [' '] + ts[n];
      SplitConcat(Join(ts[..n]), ' ', ts[n]);
    }
  }

  /** An address is `any`, an ip, or an ip and a port; further tokens are not looked at. */
  lemma AddressMeans(ts: seq<string>)
    requires AreTokens(ts)
    ensures ParseAddress(Join(ts)).Ok? <==> ts[0] == "any" || |ts| == 1 || Atoi(ts[1]).Ok?
    ensures ParseAddress(Join(ts)).Ok? ==>
              ParseAddress(Join(ts)).value ==
              if ts[0] == "any" then Address("", false, 0)
              else Address(ts[0], LooksV6(ts[0]), if |ts| == 1 then 0 else Atoi(ts[1]).value % 0x1_0000_0000)
  {
    SplitJoin(ts);
    CountTwo(ts[0]);
  }

  predicate GoodAddress(ts: seq<string>)
    requires ts != []
  {
    ts[0] == "any" || |ts| == 1 || Atoi(ts[1]).Ok?
  }

  function PortIn(ts: seq<string>): nat
    requires ts != [] && GoodAddress(ts)
  {
    if ts[0] == "any" || |ts| == 1 then 0 else Atoi(ts[1]).value % 0x1_0000_0000
  }

  function HostIn(ts: seq<string>): Option<IpAddress>
    requires ts != []
  {
    if ts[0] == "any" then None else Some(IpAddress(LooksV6(ts[0]), ts[0]))
  }

  /** A text with one `from` and one `to` behind it parses iff each of its fields does. */
  lemma ParsesIff(ts: seq<string>, m: nat)
    requires Descriptor(ts, m)
    ensures ParseFlow(Join(ts)).Ok? <==>
            && (ts[0] == "permit" || ts[0] == "deny") && (ts[1] == "in" || ts[1] == "out")
            && (ts[2] == "ip" || Atoi(ts[2]).Ok?) && GoodAddress(ts[4..m]) && GoodAddress(ts[m + 1..])
  {
    DescriptorGroups(ts, m);
    AddressMeans(ts[4..m]);
    AddressMeans(ts[m + 1..]);
  }

  /** And then every field of the flow comes from its own token. */
  lemma ParsedFields(ts: seq<string>, m: nat)
    requires Descriptor(ts, m) && ParseFlow(Join(ts)).Ok? && GoodAddress(ts[4..m]) && GoodAddress(ts[m + 1..])
    ensures var f, src, dst := ParseFlow(Join(ts)).value, ts[4..m], ts[m + 1..];
            && f.action == (if ts[0] == "permit" then Permit else Deny)
            && f.direction == (if ts[1] == "in" then Uplink else Downlink)
            && Ok(f.proto) == ParseProto(ts[2]) && f.src == HostIn(src) && f.dst == HostIn(dst)
            && f.tcpSrc == (if f.proto == 6 then PortIn(src) else 0) && f.tcpDst == (if f.proto == 6 then PortIn(dst) else 0)
            && f.udpSrc == (if f.proto == 17 then PortIn(src) else 0) && f.udpDst == (if f.proto == 17 then PortIn(dst) else 0)
  {
    DescriptorGroups(ts, m);
    AddressMeans(ts[4..m]);
    AddressMeans(ts[m + 1..]);
  }

  // Numbers

  /** Atoi reads digits with an optional sign, within 64 bits. */
  lemma AtoiReads(d: string)
    requires d != "" && AllDigits(d)
    ensures Atoi(d) == if DecimalValue(d) < 0x8000_0000_0000_0000 then Ok(DecimalValue(d)) else Err
    ensures Atoi("+" + d) == Atoi(d)
    ensures Atoi("-" + d) == if DecimalValue(d) <= 0x8000_0000_0000_0000 then Ok(0 - (DecimalValue(d) as int)) else Err
  {
    assert d[0] in d;
    assert ("+" + d)[1..] == d && ("-" + d)[1..] == d;
  }

  /** And nothing else. */
  lemma AtoiRefuses(s: string)
    requires s == "" || !AllDigits(if s[0] == '+' || s[0] == '-' then s[1..] else s) || s == "+" || s == "-"
    ensures Atoi(s) == Err
  {
  }

  /** The low 32 bits as a signed number. */
  lemma Int32Is(v: int)
    ensures -0x8000_0000 <= ToInt32(v) < 0x8000_0000 && (ToInt32(v) - v) % 0x1_0000_0000 == 0
  {
    var w := v + 0x8000_0000;
    assert w == w / 0x1_0000_0000 * 0x1_0000_0000 + w % 0x1_0000_0000;
    assert ToInt32(v) - v == -(w / 0x1_0000_0000) * 0x1_0000_0000;
  }

  /** A token is a protocol iff it is `ip` or a number; a number means what its low 32 bits name, else IP. */
  lemma ProtocolMeans(s: string)
    ensures s == "ip" ==> ParseProto(s) == Ok(0)
    ensures s != "ip" ==> (ParseProto(s).Ok? <==> Atoi(s).Ok?)
    ensures s != "ip" && Atoi(s).Ok? ==>
              ParseProto(s) == Ok(if Named(ToInt32(Atoi(s).value)) then ToInt32(Atoi(s).value) else 0)
  {
  }

  /** The numbers that have a name. */
  predicate Named(n: int)
  {
    || n == 0 || n == 1 || n == 2 || n == 6 || n == 17 || n == 43 || n == 44 || n == 47
    || n == 51 || n == 58 || n == 59 || n == 60 || n == 89 || n == 112 || n == 132
  }

  /** `\s` takes space, tab, line feed, form feed and carriage return; `.` takes all but line feed. */
  lemma ItemsTake(c: char)
    ensures Takes(SpaceRun, c) <==> c in " \t\n\r\U{000C}"
    ensures Takes(AnyRun, c) <==> c != '\n'
  {
  }
}
