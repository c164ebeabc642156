/** The stateless IPv4 filter. Words are in network byte order, as inet_pton and htonl leave them. */
module IpFilter {
  import opened Prelude
  import opened Words

  /** Text handed to inet_pton: what it parses to, in host order, if it parses at all. */
  datatype Address = Missing | Unparsable | Dotted(host: Word)

  /** The part of a CIDR text after the slash. */
  datatype Prefix = NoSlash | NotANumber | Number(n: int)

  datatype CidrText = CidrText(address: Address, prefix: Prefix)

  datatype IpFilterConfig = IpFilterConfig(whitelist: seq<CidrText>, blacklist: seq<CidrText>, defaultAllow: bool)

  datatype CidrEntry = CidrEntry(network: Word, mask: Word)

  datatype IpFilter = IpFilter(whitelist: seq<CidrEntry>, blacklist: seq<CidrEntry>, defaultAllow: bool)

  /** _parse_ip: network order, 0 when the text is no address. */
  function ParseIp(a: Address): (w: Word) {
    if a.Dotted? then Swap(a.host) else 0
  }

  predicate ValidPrefix(p: Prefix) {
    p.NoSlash? || (p.Number? && 0 <= p.n <= 32)
  }

  function PrefixLength(p: Prefix): (n: nat)
    requires ValidPrefix(p)
    ensures n <= 32
  {
    if p.NoSlash? then 32 else p.n
  }

  /** _parse_cidr; None stands for the exceptions of std::stoi and of the range check. */
  function ParseCidr(c: CidrText): (e: Option<CidrEntry>)
    ensures e.Some? <==> c.prefix == NoSlash || (c.prefix.Number? && 0 <= c.prefix.n <= 32)
  {
    if !ValidPrefix(c.prefix) then None
    else
      var mask := Swap(HostMask(PrefixLength(c.prefix)));
      Some(CidrEntry(And(ParseIp(c.address), mask), mask))
  }

  // ---- What a CIDR text means ----

  /** The base address of a CIDR text; a text that is no address counts as 0.0.0.0. */
  function Base(c: CidrText): Word {
    if c.address.Dotted? then c.address.host else 0
  }

  /** The aligned block of a size that holds the base also holds x. */
  predicate SameBlock(x: nat, base: nat, size: nat)
    requires size > 0
  {
    size * (base / size) <= x < size * (base / size) + size
  }

  /**
   What a CIDR text stands for: without a slash the one address, otherwise the aligned block of
   2^(32 - n) addresses around the base (RFC 4632, section 3.1).
   */
  predicate InBlock(c: CidrText, host: Word)
    requires ValidPrefix(c.prefix)
  {
    match c.prefix
    case NoSlash => host == Base(c)
    case Number(n) => SameBlock(host, Base(c), Pow2(32 - n))
  }

  predicate AllValid(cs: seq<CidrText>) {
    forall c | c in cs :: ValidPrefix(c.prefix)
  }

  predicate InSomeBlock(cs: seq<CidrText>, host: Word)
    requires AllValid(cs)
  {
    exists c | c in cs :: InBlock(c, host)
  }

  /** The policy an IP filter promises. */
  predicate Policy(cfg: IpFilterConfig, a: Address)
    requires AllValid(cfg.whitelist) && AllValid(cfg.blacklist)
  {
    if !a.Dotted? then cfg.defaultAllow
    else
      && !InSomeBlock(cfg.blacklist, a.host)
      && (if cfg.whitelist != [] then InSomeBlock(cfg.whitelist, a.host) else cfg.defaultAllow)
  }

  predicate Matches(e: CidrEntry, ip: Word) {
    And(ip, e.mask) == e.network
  }

  lemma SameQuotient(x: nat, y: nat, size: nat)
    requires size > 0
    ensures size * (x / size) == size * (y / size) <==> SameBlock(x, y, size)
  {
    var p, q := x / size, y / size;
    assert size * p <= x < size * p + size;
    if p < q {
      Spread(p, q, size);
    } else if q < p {
      Spread(q, p, size);
    }
  }

  lemma Spread(p: nat, q: nat, size: nat)
    requires p < q
    ensures size * p + size <= size * q
  {
    Words.Monotone(size, p + 1, q);
    assert size * (p + 1) == size * p + size;
  }

  predicate SameMasked(x: Word, y: Word, mask: Word) {
    And(x, mask) == And(y, mask)
  }

  /** Comparing masked words gives the same answer in either byte order. */
  lemma SwappedMask(x: Word, y: Word, mask: Word)
    ensures SameMasked(Swap(x), Swap(y), Swap(mask)) <==> SameMasked(x, y, mask)
  {
    SwapAnd(x, mask);
    SwapAnd(y, mask);
    SwapInvolution(And(x, mask));
    SwapInvolution(And(y, mask));
  }

  /** The word a CIDR text is compiled from. */
  lemma BaseWord(c: CidrText)
    ensures ParseIp(c.address) == Swap(Base(c))
  {
    if !c.address.Dotted? {
      assert Swap(0) == 0;
    }
  }

  /** A match compares masked words. */
  lemma MatchIsMasking(e: CidrEntry, ip: Word, base: Word, mask: Word)
    requires e == CidrEntry(And(base, mask), mask)
    ensures Matches(e, ip) <==> SameMasked(ip, base, mask)
  {
  }

  lemma MaskEqualityIsBlock(x: Word, y: Word, n: nat, mask: Word, size: nat)
    requires n <= 32 && mask == HostMask(n) && size == Pow2(32 - n) > 0
    ensures SameMasked(x, y, mask) <==> SameBlock(x, y, size)
  {
    MaskRoundsDown(x, n);
    MaskRoundsDown(y, n);
    SameQuotient(x, y, size);
  }

  /** Masking in network order is interval membership in host order. */
  lemma {:induction false} MatchIsBlockMembership(c: CidrText, host: Word)
    requires ValidPrefix(c.prefix)
    ensures Matches(ParseCidr(c).value, Swap(host)) <==> InBlock(c, host)
  {
    var n := PrefixLength(c.prefix);
    MatchIsSameBlock(c, host, n);
    if c.prefix.NoSlash? {
      BlockOfOne(host, Base(c), n);
    }
  }

  lemma MatchIsSameBlock(c: CidrText, host: Word, n: nat)
    requires ValidPrefix(c.prefix) && n == PrefixLength(c.prefix)
    ensures Matches(ParseCidr(c).value, Swap(host)) <==> SameBlock(host, Base(c), Pow2(32 - n))
  {
    var mask := HostMask(n);
    BaseWord(c);
    MatchIsMasking(ParseCidr(c).value, Swap(host), Swap(Base(c)), Swap(mask));
    SwappedMask(host, Base(c), mask);
    MaskEqualityIsBlock(host, Base(c), n, mask, Pow2(32 - n));
  }

  lemma BlockOfOne(x: nat, base: nat, n: nat)
    requires n == 32
    ensures SameBlock(x, base, Pow2(32 - n)) <==> x == base
  {
  }

  /** The address 0.0.0.0 is the only one whose network-order word is zero. */
  lemma OnlyZeroSwapsToZero(host: Word)
    ensures Swap(host) == 0 <==> host == 0
  {
    SwapInvolution(host);
  }

  /** `entries` are the compiled forms of the texts, one by one. */
  ghost predicate Entries(texts: seq<CidrText>, entries: seq<CidrEntry>) {
    |entries| == |texts| && forall i | 0 <= i < |texts| :: ParseCidr(texts[i]) == Some(entries[i])
  }

  lemma EntriesAppend(texts: seq<CidrText>, entries: seq<CidrEntry>, c: CidrText, e: CidrEntry)
    requires Entries(texts, entries) && ParseCidr(c) == Some(e)
    ensures Entries(texts + [c], entries + [e])
  {
  }

  lemma EntriesAreValid(texts: seq<CidrText>, entries: seq<CidrEntry>)
    requires Entries(texts, entries)
    ensures AllValid(texts)
  {
  }

  /** One list of the constructor: every entry compiled, or the whole construction fails. */
  method CompileList(texts: seq<CidrText>) returns (r: Option<seq<CidrEntry>>)
    ensures r.Some? <==> AllValid(texts)
    ensures r.Some? ==> Entries(texts, r.value)
  {
    var entries: seq<CidrEntry> := [];
    for i := 0 to |texts|
      invariant Entries(texts[..i], entries)
    {
      var e := ParseCidr(texts[i]);
      if e.None? {
        assert texts[i] in texts;
        return None;
      }
      EntriesAppend(texts[..i], entries, texts[i], e.value);
      entries := entries + [e.value];
      assert texts[..i + 1] == texts[..i] + [texts[i]];
    }
    assert texts[..|texts|] == texts;
    EntriesAreValid(texts, entries);
    return Some(entries);
  }

  /** What the constructor builds; it throws exactly when some prefix is malformed. */
  ghost predicate CompiledFrom(f: IpFilter, cfg: IpFilterConfig) {
    && AllValid(cfg.whitelist) && AllValid(cfg.blacklist)
    && f.defaultAllow == cfg.defaultAllow
    && Entries(cfg.whitelist, f.whitelist) && Entries(cfg.blacklist, f.blacklist)
  }

  method Compile(cfg: IpFilterConfig) returns (r: Option<IpFilter>)
    ensures r.Some? <==> AllValid(cfg.whitelist) && AllValid(cfg.blacklist)
    ensures r.Some? ==> CompiledFrom(r.value, cfg)
  {
    var black := CompileList(cfg.blacklist);
    if black.None? {
      return None;
    }
    var white := CompileList(cfg.whitelist);
    if white.None? {
      return None;
    }
    return Some(IpFilter(white.value, black.value, cfg.defaultAllow));
  }

  predicate MatchesAny(es: seq<CidrEntry>, ip: Word) {
    exists e | e in es :: Matches(e, ip)
  }

  /** The answer of is_allowed on compiled entries. */
  predicate Allowed(f: IpFilter, a: Address) {
    if !a.Dotted? then f.defaultAllow
    else
      && !MatchesAny(f.blacklist, Swap(a.host))
      && (if f.whitelist != [] then MatchesAny(f.whitelist, Swap(a.host)) else f.defaultAllow)
  }

  /** A search loop of is_allowed. */
  method Search(es: seq<CidrEntry>, ip: Word) returns (found: bool)
    ensures found == MatchesAny(es, ip)
  {
    for i := 0 to |es|
      invariant forall j | 0 <= j < i :: !Matches(es[j], ip)
    {
      if And(ip, es[i].mask) == es[i].network {
        assert Matches(es[i], ip);
        return true;
      }
    }
    return false;
  }

  method IsAllowed(f: IpFilter, a: Address) returns (allowed: bool)
    ensures allowed == Allowed(f, a)
  {
    if a.Missing? {
      return f.defaultAllow;
    }
    var ip := ParseIp(a);
    if a.Dotted? {
      OnlyZeroSwapsToZero(a.host);
    }
    if ip == 0 && a != Dotted(0) {
      return f.defaultAllow;
    }
    var black := Search(f.blacklist, ip);
    if black {
      return false;
    }
    if f.whitelist != [] {
      var white := Search(f.whitelist, ip);
      return white;
    }
    return f.defaultAllow;
  }

  lemma ListMatch(texts: seq<CidrText>, entries: seq<CidrEntry>, host: Word)
    requires AllValid(texts) && Entries(texts, entries)
    ensures MatchesAny(entries, Swap(host)) <==> InSomeBlock(texts, host)
  {
    forall i | 0 <= i < |texts| ensures Matches(entries[i], Swap(host)) <==> InBlock(texts[i], host) {
      MatchIsBlockMembership(texts[i], host);
    }
    if e :| e in entries && Matches(e, Swap(host)) {
      var i :| 0 <= i < |entries| && entries[i] == e;
      assert texts[i] in texts && InBlock(texts[i], host);
    }
    if c :| c in texts && InBlock(c, host) {
      var i :| 0 <= i < |texts| && texts[i] == c;
      assert entries[i] in entries && Matches(entries[i], Swap(host));
    }
  }

  /** The compiled filter decides exactly the configured policy. */
  lemma {:induction false} FilterMeetsPolicy(cfg: IpFilterConfig, f: IpFilter, a: Address)
    requires CompiledFrom(f, cfg)
    ensures Allowed(f, a) <==> Policy(cfg, a)
  {
    if a.Dotted? {
      ListMatch(cfg.blacklist, f.blacklist, a.host);
      ListMatch(cfg.whitelist, f.whitelist, a.host);
    }
  }
}
