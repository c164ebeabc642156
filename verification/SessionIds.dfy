/** Session ids: how both transports print them and how each reads the shard number back. */
module SessionIds {
  import opened Prelude
  import opened Digits

  /** Which transport minted the id. */
  datatype Kind = Sse | Streamable

  function Prefix(kind: Kind): string {
    if kind.Sse? then "s" else "sm"
  }

  /** "s{shard}_{counter}" or "sm{shard}_{counter}". */
  function Mint(kind: Kind, shard: nat, counter: nat): (id: string) {
    Prefix(kind) + Print(shard, Decimal) + "_" + Print(counter, Decimal)
  }

  /** Does the id have the form of the HTTP/SSE transport's ids? */
  predicate IsSseId(id: string) {
    |id| >= 2 && id[0] == 's' && id[1] != 'm'
  }

  /** std::string::find of one character from a position on. */
  function Find(s: string, c: char, from: nat): (r: Option<nat>)
    ensures r.Some? ==> from <= r.value < |s| && s[r.value] == c
    ensures r.Some? ==> forall i | from <= i < r.value :: s[i] != c
    ensures r.None? ==> forall i | from <= i < |s| :: s[i] != c
    decreases |s| - from
  {
    if from >= |s| then None
    else if s[from] == c then Some(from)
    else Find(s, c, from + 1)
  }

  /** The digits between two positions as a 32-bit shard number, 0 when they cannot be read. */
  function ReadShard(id: string, start: nat, end: nat): (k: nat)
    requires start <= end <= |id|
    ensures k < TWO_32
  {
    match Stoul(id[start..end])
    case Some(v) => v % TWO_32
    case None => 0
  }

  /** The Streamable HTTP transport's _parse_shard. */
  function ParseStreamable(id: string): (k: nat)
    ensures k < TWO_32
  {
    var start := if |id| > 2 && id[0] == 's' && id[1] == 'm' then 2 else 1;
    match Find(id, '_', start)
    case Some(pos) => if pos > start then ReadShard(id, start, pos) else 0
    case None => 0
  }

  /** The HTTP/SSE transport's _parse_shard. */
  function ParseSse(id: string): (k: nat)
    ensures k < TWO_32
  {
    if |id| > 1 && id[0] == 's' then
      match Find(id, '_', 0)
      case Some(pos) => if pos > 1 then ReadShard(id, 1, pos) else 0
      case None => 0
    else 0
  }

  function Parse(transport: Kind, id: string): (k: nat) {
    if transport.Sse? then ParseSse(id) else ParseStreamable(id)
  }

  lemma Layout(a: string, b: string, c: string)
    ensures var id := a + b + "_" + c;
      && |id| == |a| + |b| + 1 + |c|
      && id[|a|..|a| + |b|] == b && id[|a| + |b|] == '_' && id[|a| + |b| + 1..] == c
      && (forall i | 0 <= i < |a| :: id[i] == a[i])
      && (forall i | |a| <= i < |a| + |b| :: id[i] == b[i - |a|])
  {
  }

  lemma DigitsHaveNoUnderscore(n: nat)
    ensures |Print(n, Decimal)| > 0
    ensures forall i | 0 <= i < |Print(n, Decimal)| :: DigitValue(Print(n, Decimal)[i]) < 10
    ensures '_' !in Print(n, Decimal) && 'm' !in Print(n, Decimal)
  {
    PrintRoundTrip(n, Decimal);
  }

  /** The first underscore of a minted id stands right after the shard number. */
  lemma MintLayout(kind: Kind, shard: nat, counter: nat)
    ensures var id, p, d := Mint(kind, shard, counter), |Prefix(kind)|, Print(shard, Decimal);
      && |d| > 0 && |id| > p + |d| + 1
      && id[p..p + |d|] == d && id[p + |d|] == '_'
      && id[p + |d| + 1..] == Print(counter, Decimal)
      && (forall i | 0 <= i < p + |d| :: id[i] != '_')
      && id[0] == 's' && (id[1] == 'm' <==> kind.Streamable?)
  {
    var d := Print(shard, Decimal);
    DigitsHaveNoUnderscore(shard);
    DigitsHaveNoUnderscore(counter);
    Layout(Prefix(kind), d, Print(counter, Decimal));
    assert d[0] in d;
  }

  lemma MintKind(kind: Kind, shard: nat, counter: nat)
    ensures IsSseId(Mint(kind, shard, counter)) <==> kind.Sse?
  {
    MintLayout(kind, shard, counter);
  }

  /** A minted id can be put in the endpoint event: it holds no line break. */
  lemma MintIsOneLine(kind: Kind, shard: nat, counter: nat)
    ensures '\r' !in Mint(kind, shard, counter) && '\n' !in Mint(kind, shard, counter)
  {
    DigitsHaveNoBreak(shard);
    DigitsHaveNoBreak(counter);
  }

  lemma DigitsHaveNoBreak(n: nat)
    ensures '\r' !in Print(n, Decimal) && '\n' !in Print(n, Decimal)
  {
    DigitsHaveNoUnderscore(n);
    assert DigitValue('\r') == 16 && DigitValue('\n') == 16;
  }

  lemma FindFirst(s: string, c: char, from: nat, pos: nat)
    requires from <= pos < |s| && s[pos] == c
    requires forall i | from <= i < pos :: s[i] != c
    ensures Find(s, c, from) == Some(pos)
  {
  }

  /** Minting never gives the same id twice: kind, shard and counter can all be read off. */
  lemma MintInjective(k1: Kind, s1: nat, c1: nat, k2: Kind, s2: nat, c2: nat)
    requires Mint(k1, s1, c1) == Mint(k2, s2, c2)
    ensures k1 == k2 && s1 == s2 && c1 == c2
  {
    MintLayout(k1, s1, c1);
    MintLayout(k2, s2, c2);
    var id, p := Mint(k1, s1, c1), |Prefix(k1)|;
    var d1, d2 := Print(s1, Decimal), Print(s2, Decimal);
    FindFirst(id, '_', 0, p + |d1|);
    FindFirst(id, '_', 0, p + |d2|);
    assert d1 == id[p..p + |d1|] == d2;
    PrintInjective(s1, s2, Decimal);
    PrintInjective(c1, c2, Decimal);
  }

  /** What an id was minted from. */
  datatype Stamp = Stamp(kind: Kind, shard: nat, counter: nat)

  function MintStamp(st: Stamp): string {
    Mint(st.kind, st.shard, st.counter)
  }

  /** The inverse of minting; None for text that no transport mints. */
  ghost function Origin(id: string): Option<Stamp> {
    if exists st: Stamp :: MintStamp(st) == id then
      var st: Stamp :| MintStamp(st) == id;
      Some(st)
    else None
  }

  lemma OriginOfMint(kind: Kind, shard: nat, counter: nat)
    ensures Origin(Mint(kind, shard, counter)) == Some(Stamp(kind, shard, counter))
  {
    var id := Mint(kind, shard, counter);
    assert MintStamp(Stamp(kind, shard, counter)) == id;
    var st := Origin(id).value;
    MintInjective(st.kind, st.shard, st.counter, kind, shard, counter);
  }

  lemma ReadPrintedShard(id: string, start: nat, end: nat, shard: nat)
    requires start <= end <= |id| && id[start..end] == Print(shard, Decimal)
    requires shard < TWO_32
    ensures ReadShard(id, start, end) == shard
  {
    StoulPrint(shard, []);
    assert id[start..end] == Print(shard, Decimal) + [];
  }

  /** The Streamable HTTP transport reads both forms back. */
  lemma StreamableInverts(kind: Kind, shard: nat, counter: nat)
    requires shard < TWO_32
    ensures ParseStreamable(Mint(kind, shard, counter)) == shard
  {
    var id, p, d := Mint(kind, shard, counter), |Prefix(kind)|, Print(shard, Decimal);
    MintLayout(kind, shard, counter);
    FindFirst(id, '_', p, p + |d|);
    ReadPrintedShard(id, p, p + |d|, shard);
  }

  /**
   The HTTP/SSE transport reads its own form back. The other transport's ids it sends to shard 0
   whatever they say, so it is right about those exactly when they come from shard 0.
   */
  lemma SseInvertsExactly(kind: Kind, shard: nat, counter: nat)
    requires shard < TWO_32
    ensures ParseSse(Mint(kind, shard, counter)) == shard <==> kind.Sse? || shard == 0
    ensures kind.Streamable? ==> ParseSse(Mint(kind, shard, counter)) == 0
  {
    var id, p, d := Mint(kind, shard, counter), |Prefix(kind)|, Print(shard, Decimal);
    MintLayout(kind, shard, counter);
    FindFirst(id, '_', 0, p + |d|);
    if kind.Sse? {
      ReadPrintedShard(id, p, p + |d|, shard);
    } else {
      var t := id[1..p + |d|];
      assert t[0] == 'm' && SkipSpace(t) == t;
      assert DigitRun(t, Decimal) == 0;
    }
  }
}
