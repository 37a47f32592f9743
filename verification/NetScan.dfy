/** Scan targets (webpanel/app/netscan.py `parse_targets`): expansion of a target specification to IPv4 addresses, and
    the merging of all enabled subnets. Parsing of a CIDR token is the library's and comes in as a function. */
module NetScan {
  import opened Options
  import opened Text

  const MAX_HOSTS := 65536

  datatype Address = Address(a: nat, b: nat, c: nat, d: nat)

  /** What the library makes of a token with a slash: an address in a block of the given prefix length, or IPv6. */
  datatype Network = V4(address: nat, prefix: nat) | V6

  datatype Problem = EmptySpec | Malformed | OnlyIPv4 | TooWide | NoHosts

  type Expansion = Result<seq<Address>, Problem>

  predicate Valid(x: Address) { x.a < 256 && x.b < 256 && x.c < 256 && x.d < 256 }

  function Value(x: Address): nat { ((x.a * 256 + x.b) * 256 + x.c) * 256 + x.d }

  function Show(x: Address): string { Decimal(x.a) + "." + Decimal(x.b) + "." + Decimal(x.c) + "." + Decimal(x.d) }

  // ---------------------------------------------------------------- text

  function Replaced(s: string, old_: char, new_: char): string {
    if s == [] then [] else [if s[0] == old_ then new_ else s[0]] + Replaced(s[1..], old_, new_)
  }

  function StripAll(parts: seq<string>): (r: seq<string>)
    ensures |r| == |parts| && forall i :: 0 <= i < |r| ==> r[i] == Strip(parts[i])
  {
    if parts == [] then [] else [Strip(parts[0])] + StripAll(parts[1..])
  }

  function Tokens(spec: string): seq<string> { StripAll(Split(Replaced(spec, ';', ','), ',')) }

  /** The position of the first `c`, or the length. */
  function Find(s: string, c: char): (k: nat)
    ensures k <= |s| && (k < |s| <==> c in s) && (k < |s| ==> s[k] == c)
  {
    if s == [] || s[0] == c then 0 else 1 + Find(s[1..], c)
  }

  /** Digits, with single underscores allowed between them. */
  function Number(t: string): Option<nat> {
    if t == [] || !IsDigit(t[|t| - 1]) then None
    else
      var d := t[|t| - 1] as nat - '0' as nat;
      var init := t[..|t| - 1];
      if init == [] then Some(d)
      else
        match Number(if init[|init| - 1] == '_' then init[..|init| - 1] else init)
        case None => None
        case Some(v) => Some(10 * v + d)
  }

  /** Python's `int` of a text. */
  function IntOf(s: string): Option<int> {
    var t := Strip(s);
    if t == [] then None
    else
      match Number(if t[0] == '-' || t[0] == '+' then t[1..] else t)
      case None => None
      case Some(v) => var n: int := v; Some(if t[0] == '-' then -n else n)
  }

  // ---------------------------------------------------------------- one token

  /** Bounds of an octet, if in order and in range. */
  function Bounds(lo: int, hi: int): Option<(nat, nat)> { if 0 <= lo <= hi <= 255 then Some((lo, hi)) else None }

  /** The range an octet stands for. */
  function OctetRange(octet: string): Option<(nat, nat)> {
    var part := Strip(octet);
    if part == "*" then Some((0, 255))
    else if '-' in part then
      var (lo, hi) := (part[..Find(part, '-')], part[Find(part, '-') + 1..]);
      var from := if Strip(lo) != "" then IntOf(lo) else Some(0);
      var upto := if Strip(hi) != "" then IntOf(hi) else Some(255);
      if from.Some? && upto.Some? then Bounds(from.value, upto.value) else None
    else if IntOf(part).Some? then Bounds(IntOf(part).value, IntOf(part).value) else None
  }

  function Numbers(lo: nat, hi: int): (r: seq<nat>)
    ensures |r| == (if lo <= hi then hi - lo + 1 else 0) && forall i :: 0 <= i < |r| ==> r[i] == lo + i
    decreases hi - lo
  {
    if lo > hi then [] else [lo] + Numbers(lo + 1, hi)
  }

  /** The numbers of a range. */
  function Span(r: (nat, nat)): seq<nat> { Numbers(r.0, r.1) }

  function Fourths(a: nat, b: nat, c: nat, ds: seq<nat>): seq<Address> {
    if ds == [] then [] else [Address(a, b, c, ds[0])] + Fourths(a, b, c, ds[1..])
  }

  function Thirds(a: nat, b: nat, cs: seq<nat>, ds: seq<nat>): seq<Address> {
    if cs == [] then [] else Fourths(a, b, cs[0], ds) + Thirds(a, b, cs[1..], ds)
  }

  function Seconds(a: nat, bs: seq<nat>, cs: seq<nat>, ds: seq<nat>): seq<Address> {
    if bs == [] then [] else Thirds(a, bs[0], cs, ds) + Seconds(a, bs[1..], cs, ds)
  }

  /** The four nested loops of the comprehension. */
  function Product(as_: seq<nat>, bs: seq<nat>, cs: seq<nat>, ds: seq<nat>): seq<Address> {
    if as_ == [] then [] else Seconds(as_[0], bs, cs, ds) + Product(as_[1..], bs, cs, ds)
  }

  function Pow2(n: nat): (p: nat)
    ensures p >= 1
  {
    if n == 0 then 1 else 2 * Pow2(n - 1)
  }

  function OfValue(v: nat): Address { Address(v / 256 / 256 / 256, v / 256 / 256 % 256, v / 256 % 256, v % 256) }

  function Listed(lo: nat, hi: int): (r: seq<Address>)
    ensures |r| == (if lo <= hi then hi - lo + 1 else 0) && forall i: nat :: i < |r| ==> r[i] == OfValue(lo + i)
    decreases hi - lo
  {
    if lo > hi then [] else [OfValue(lo)] + Listed(lo + 1, hi)
  }

  /** The first address of the block of `size` around an address. */
  function Base(address: nat, size: nat): nat
    requires size >= 1
  {
    address - address % size
  }

  /** `hosts()`: without the network and broadcast address, except for blocks of one or two. */
  function Usable(address: nat, size: nat): seq<Address>
    requires size >= 1
  {
    if size <= 2 then Listed(Base(address, size), Base(address, size) + size - 1)
    else Listed(Base(address, size) + 1, Base(address, size) + size - 2)
  }

  function ExpandOctets(octets: seq<string>): Expansion {
    if |octets| != 4 then Err(Malformed)
    else
      var (a, b, c, d) := (OctetRange(octets[0]), OctetRange(octets[1]), OctetRange(octets[2]), OctetRange(octets[3]));
      if a.None? || b.None? || c.None? || d.None? then Err(Malformed)
      else Ok(Product(Span(a.value), Span(b.value), Span(c.value), Span(d.value)))
  }

  function ExpandToken(token: string, cidr: string -> Option<Network>): Expansion {
    if '/' in token then
      match cidr(token)
      case None => Err(Malformed)
      case Some(V6) => Err(OnlyIPv4)
      case Some(V4(address, prefix)) =>
        if prefix > 32 || address >= Pow2(32) then Err(Malformed)
        else if Pow2(32 - prefix) > MAX_HOSTS then Err(TooWide)
        else Ok(Usable(address, Pow2(32 - prefix)))
    else ExpandOctets(Split(token, '.'))
  }

  // ---------------------------------------------------------------- all tokens

  /** The distinct addresses of a list, each where it first occurs. */
  function Firsts(xs: seq<Address>): seq<Address> {
    if xs == [] then []
    else
      var (init, x) := (Firsts(xs[..|xs| - 1]), xs[|xs| - 1]);
      if x in init then init else init + [x]
  }

  /** All expansions one after the other; fails with the first token that does, blank ones aside. */
  function Expanded(tokens: seq<string>, cidr: string -> Option<Network>): Expansion {
    if tokens == [] then Ok([])
    else
      match Expanded(tokens[..|tokens| - 1], cidr)
      case Err(e) => Err(e)
      case Ok(xs) =>
        if tokens[|tokens| - 1] == "" then Ok(xs)
        else
          match ExpandToken(tokens[|tokens| - 1], cidr)
          case Err(e) => Err(e)
          case Ok(ys) => Ok(xs + ys)
  }

  /** An address list is accepted as targets when it has between one and 65536 distinct members. */
  predicate Accepted(e: Expansion) { e.Ok? && 0 < |Firsts(e.value)| <= MAX_HOSTS }

  lemma {:induction false} FirstsGrow(xs: seq<Address>, ys: seq<Address>)
    ensures |Firsts(xs)| <= |Firsts(xs + ys)|
  {
    if ys == [] {
      assert xs + ys == xs;
    } else {
      FirstsGrow(xs, ys[..|ys| - 1]);
      assert (xs + ys)[..|xs + ys| - 1] == xs + ys[..|ys| - 1];
    }
  }

  lemma FirstsNext(before: seq<Address>, ips: seq<Address>, j: nat)
    requires j < |ips|
    ensures var f := Firsts(before + ips[..j]);
      Firsts(before + ips[..j + 1]) == if ips[j] in f then f else f + [ips[j]]
  {
    assert (before + ips[..j + 1])[..|before| + j] == before + ips[..j];
  }

  lemma {:induction false} ExpandedMore(tokens: seq<string>, i: nat, cidr: string -> Option<Network>)
    requires i <= |tokens|
    ensures Expanded(tokens[..i], cidr).Err? ==> Expanded(tokens, cidr).Err?
    ensures Expanded(tokens, cidr).Ok? ==> |Firsts(Expanded(tokens[..i], cidr).value)| <= |Firsts(Expanded(tokens, cidr).value)|
    decreases |tokens|
  {
    if i == |tokens| {
      assert tokens[..i] == tokens;
    } else {
      var init := tokens[..|tokens| - 1];
      ExpandedMore(init, i, cidr);
      assert init[..i] == tokens[..i];
      if Expanded(tokens, cidr).Ok? && tokens[|tokens| - 1] != "" {
        FirstsGrow(Expanded(init, cidr).value, ExpandToken(tokens[|tokens| - 1], cidr).value);
      }
    }
  }

  /** The addresses of one token that were not seen before are added to `out`, until there are too many. */
  method AddNew(ghost before: seq<Address>, out: seq<Address>, ips: seq<Address>) returns (r: Expansion)
    requires out == Firsts(before) && |out| <= MAX_HOSTS
    ensures r.Ok? <==> |Firsts(before + ips)| <= MAX_HOSTS
    ensures r.Ok? ==> r.value == Firsts(before + ips)
  {
    var grown := out;
    assert before + ips[..0] == before;
    hide Firsts;
    for j := 0 to |ips|
      invariant grown == Firsts(before + ips[..j]) && |grown| <= MAX_HOSTS
    {
      FirstsNext(before, ips, j);
      if ips[j] !in grown {
        grown := grown + [ips[j]];
        if |grown| > MAX_HOSTS {
          FirstsGrow(before + ips[..j + 1], ips[j + 1..]);
          assert before + ips[..j + 1] + ips[j + 1..] == before + ips;
          return Err(TooWide);
        }
      }
    }
    assert ips[..|ips|] == ips;
    return Ok(grown);
  }

  /** Success exactly for an acceptable expansion, and then its distinct addresses. The scan of a token stops as soon as
      there are too many. */
  method ParseTargets(spec: string, cidr: string -> Option<Network>) returns (r: Expansion)
    ensures r.Ok? <==> Accepted(Expanded(Tokens(spec), cidr))
    ensures r.Ok? ==> r.value == Firsts(Expanded(Tokens(spec), cidr).value)
  {
    hide Tokens, ExpandToken;
    var tokens := Tokens(spec);
    var out: seq<Address> := [];
    var i := 0;
    assert tokens[..0] == [];
    while i < |tokens|
      invariant 0 <= i <= |tokens| && |out| <= MAX_HOSTS
      invariant Expanded(tokens[..i], cidr).Ok? && out == Firsts(Expanded(tokens[..i], cidr).value)
    {
      ExpandedMore(tokens, i + 1, cidr);
      assert tokens[..i + 1][..i] == tokens[..i];
      if tokens[i] != "" {
        var e := ExpandToken(tokens[i], cidr);
        if e.Err? { return Err(e.error); }
        var grown := AddNew(Expanded(tokens[..i], cidr).value, out, e.value);
        if grown.Err? { return Err(grown.error); }
        out := grown.value;
      }
      i := i + 1;
    }
    assert tokens[..i] == tokens;
    if out == [] { return Err(if forall t :: t in tokens ==> t == "" then EmptySpec else NoHosts); }
    return Ok(out);
  }

  // ---------------------------------------------------------------- all subnets

  /** The targets of the accepted specifications one after the other; the others are skipped. */
  function Pooled(specs: seq<string>, cidr: string -> Option<Network>): seq<Address> {
    if specs == [] then []
    else
      var (init, e) := (Pooled(specs[..|specs| - 1], cidr), Expanded(Tokens(specs[|specs| - 1]), cidr));
      if Accepted(e) then init + Firsts(e.value) else init
  }

  function Capped(xs: seq<Address>): seq<Address> { if |xs| > MAX_HOSTS then xs[..MAX_HOSTS] else xs }

  method AddUnseen(ghost before: seq<Address>, targets: seq<Address>, ips: seq<Address>) returns (r: seq<Address>)
    requires targets == Firsts(before)
    ensures r == Firsts(before + ips)
  {
    r := targets;
    assert before + ips[..0] == before;
    hide Firsts;
    for j := 0 to |ips|
      invariant r == Firsts(before + ips[..j])
    {
      FirstsNext(before, ips, j);
      if ips[j] !in r { r := r + [ips[j]]; }
    }
    assert ips[..|ips|] == ips;
  }

  /** The start of `run_network_scan`: what the enabled subnets make it probe. */
  method CollectTargets(specs: seq<string>, cidr: string -> Option<Network>) returns (targets: seq<Address>)
    ensures targets == Capped(Firsts(Pooled(specs, cidr)))
  {
    targets := [];
    hide Expanded, Tokens;
    for i := 0 to |specs|
      invariant targets == Firsts(Pooled(specs[..i], cidr))
    {
      assert specs[..i + 1][..i] == specs[..i];
      var r := ParseTargets(specs[i], cidr);
      if r.Ok? { targets := AddUnseen(Pooled(specs[..i], cidr), targets, r.value); }
    }
    assert specs[..|specs|] == specs;
    if |targets| > MAX_HOSTS { targets := targets[..MAX_HOSTS]; }
  }
}
