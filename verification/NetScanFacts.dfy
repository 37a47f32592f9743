/** What scan target expansion promises: exactly the denoted addresses, once each, in order, and round trips. */
module NetScanFacts {
  import opened Options
  import opened Text
  import opened NetScan

  // ---------------------------------------------------------------- what a specification denotes

  predicate Within(r: Option<(nat, nat)>, n: nat) { r.Some? && r.value.0 <= n <= r.value.1 }

  /** The address is one a token stands for: in the CIDR block and usable there, or octet by octet. */
  predicate Denotes(token: string, x: Address, cidr: string -> Option<Network>) {
    if '/' in token then
      cidr(token).Some? && cidr(token).value.V4? && cidr(token).value.prefix <= 32 && Valid(x) && InBlock(x, cidr(token).value.address, Pow2(32 - cidr(token).value.prefix))
    else
      var octets := Split(token, '.');
      |octets| == 4 && Within(OctetRange(octets[0]), x.a) && Within(OctetRange(octets[1]), x.b) && Within(OctetRange(octets[2]), x.c) && Within(OctetRange(octets[3]), x.d)
  }

  /** The same block, and neither its first nor its last address unless the block has at most two. */
  predicate InBlock(x: Address, address: nat, size: nat)
    requires size >= 1
  {
    Value(x) / size == address / size && (size > 2 ==> Value(x) % size != 0 && Value(x) % size != size - 1)
  }

  ghost predicate Ascending(xs: seq<Address>) { forall i, j :: 0 <= i < j < |xs| ==> Value(xs[i]) < Value(xs[j]) }

  ghost predicate NumbersRise(ns: seq<nat>) {
    (forall i :: 0 <= i < |ns| ==> ns[i] < 256) && forall i, j :: 0 <= i < j < |ns| ==> ns[i] < ns[j]
  }

  lemma RiseTail(ns: seq<nat>)
    requires NumbersRise(ns) && ns != []
    ensures NumbersRise(ns[1..]) && ns[0] < 256 && forall n :: n in ns[1..] ==> ns[0] < n < 256
    ensures forall n :: n in ns <==> n == ns[0] || n in ns[1..]
  {
    assert ns == [ns[0]] + ns[1..];
  }

  lemma AscendingConcat(xs: seq<Address>, ys: seq<Address>)
    requires Ascending(xs) && Ascending(ys) && forall x, y :: x in xs && y in ys ==> Value(x) < Value(y)
    ensures Ascending(xs + ys)
  {
    var zs := xs + ys;
    forall i, j | 0 <= i < j < |zs| ensures Value(zs[i]) < Value(zs[j]) {
      if i < |xs| <= j { assert zs[i] in xs && zs[j] in ys; }
    }
  }

  lemma {:induction false} FourthsExact(a: nat, b: nat, c: nat, ds: seq<nat>)
    requires NumbersRise(ds)
    ensures forall x :: x in Fourths(a, b, c, ds) <==> x.a == a && x.b == b && x.c == c && x.d in ds
    ensures Ascending(Fourths(a, b, c, ds))
  {
    if ds != [] {
      RiseTail(ds);
      FourthsExact(a, b, c, ds[1..]);
      AscendingConcat([Address(a, b, c, ds[0])], Fourths(a, b, c, ds[1..]));
    }
  }

  lemma {:induction false} ThirdsExact(a: nat, b: nat, cs: seq<nat>, ds: seq<nat>)
    requires NumbersRise(cs) && NumbersRise(ds)
    ensures forall x :: x in Thirds(a, b, cs, ds) <==> x.a == a && x.b == b && x.c in cs && x.d in ds
    ensures Ascending(Thirds(a, b, cs, ds))
  {
    if cs != [] {
      RiseTail(cs);
      FourthsExact(a, b, cs[0], ds);
      ThirdsExact(a, b, cs[1..], ds);
      AscendingConcat(Fourths(a, b, cs[0], ds), Thirds(a, b, cs[1..], ds));
    }
  }

  lemma {:induction false} SecondsExact(a: nat, bs: seq<nat>, cs: seq<nat>, ds: seq<nat>)
    requires NumbersRise(bs) && NumbersRise(cs) && NumbersRise(ds)
    ensures forall x :: x in Seconds(a, bs, cs, ds) <==> x.a == a && x.b in bs && x.c in cs && x.d in ds
    ensures Ascending(Seconds(a, bs, cs, ds))
  {
    if bs != [] {
      RiseTail(bs);
      ThirdsExact(a, bs[0], cs, ds);
      SecondsExact(a, bs[1..], cs, ds);
      AscendingConcat(Thirds(a, bs[0], cs, ds), Seconds(a, bs[1..], cs, ds));
    }
  }

  lemma {:induction false} ProductExact(as_: seq<nat>, bs: seq<nat>, cs: seq<nat>, ds: seq<nat>)
    requires NumbersRise(as_) && NumbersRise(bs) && NumbersRise(cs) && NumbersRise(ds)
    ensures forall x :: x in Product(as_, bs, cs, ds) <==> x.a in as_ && x.b in bs && x.c in cs && x.d in ds
    ensures Ascending(Product(as_, bs, cs, ds))
  {
    if as_ != [] {
      RiseTail(as_);
      SecondsExact(as_[0], bs, cs, ds);
      ProductExact(as_[1..], bs, cs, ds);
      AscendingConcat(Seconds(as_[0], bs, cs, ds), Product(as_[1..], bs, cs, ds));
    }
  }

  lemma RangeExact(octet: string)
    requires OctetRange(octet).Some?
    ensures var (lo, hi) := OctetRange(octet).value;
      0 <= lo <= hi <= 255 && NumbersRise(Numbers(lo, hi)) && forall n: nat :: n in Numbers(lo, hi) <==> Within(OctetRange(octet), n)
  {
    var (lo, hi) := OctetRange(octet).value;
    var ns := Numbers(lo, hi);
    forall n: nat | lo <= n <= hi ensures n in ns { assert ns[n - lo] == n; }
  }

  lemma LastOctet(v: nat, q: nat, d: nat)
    requires v == q * 256 + d && d < 256
    ensures v / 256 == q && v % 256 == d
  {
  }

  lemma ValueOfValue(v: nat, x: Address)
    requires v < 0x1_0000_0000
    ensures Value(OfValue(v)) == v && Valid(OfValue(v))
    ensures Valid(x) && Value(x) == v ==> x == OfValue(v)
  {
    if Valid(x) && Value(x) == v {
      LastOctet(v, (x.a * 256 + x.b) * 256 + x.c, x.d);
      LastOctet((x.a * 256 + x.b) * 256 + x.c, x.a * 256 + x.b, x.c);
      LastOctet(x.a * 256 + x.b, x.a, x.b);
    }
  }

  lemma Scaled(x: nat, y: nat, size: nat)
    ensures x <= y ==> x * size <= y * size
  {
  }

  lemma QuotientIs(v: nat, q: nat, size: nat)
    requires size >= 1
    ensures v / size == q <==> q * size <= v < q * size + size
  {
    var p := v / size;
    assert v == p * size + v % size;
    Scaled(p + 1, q, size);
    Scaled(q + 1, p, size);
  }

  lemma BlockArithmetic(v: nat, address: nat, size: nat)
    requires size >= 1
    ensures v / size == address / size <==> Base(address, size) <= v < Base(address, size) + size
    ensures v / size == address / size ==> v % size == v - Base(address, size)
  {
    QuotientIs(v, address / size, size);
  }

  lemma BlockFits(address: nat, size: nat, n: nat)
    requires address < Pow2(32) && n <= 32 && size == Pow2(n)
    ensures Base(address, size) + size <= 0x1_0000_0000
  {
    PowSplit(n, 32 - n);
    PowIs();
    FitsBelow(address, size, Pow2(32 - n));
    BaseIs(address, size);
    hide Pow2, Base;
  }

  lemma BaseIs(address: nat, size: nat)
    requires size >= 1
    ensures Base(address, size) == address / size * size
  {
    assert address == address / size * size + address % size;
  }

  lemma FitsBelow(address: nat, size: nat, r: nat)
    requires size >= 1 && address < size * r
    ensures address / size * size + size <= size * r
  {
    var q := address / size;
    QuotientIs(address, q, size);
    Scaled(r, q, size);
    Scaled(q + 1, r, size);
    assert (q + 1) * size == q * size + size;
  }

  lemma {:induction false} PowSplit(m: nat, n: nat)
    ensures Pow2(m) * Pow2(n) == Pow2(m + n)
  {
    if m > 0 { PowSplit(m - 1, n); }
  }

  lemma PowIs()
    ensures Pow2(32) == 0x1_0000_0000
  {
    assert Pow2(8) == 256;
    PowSplit(8, 8);
    PowSplit(16, 16);
  }

  lemma UsableExact(address: nat, n: nat)
    requires n <= 32 && address < Pow2(32)
    ensures forall x :: x in Usable(address, Pow2(n)) <==> Valid(x) && InBlock(x, address, Pow2(n))
    ensures Ascending(Usable(address, Pow2(n)))
  {
    var size := Pow2(n);
    var (base, xs) := (Base(address, size), Usable(address, size));
    var lo := if size <= 2 then base else base + 1;
    BlockFits(address, size, n);
    forall i: nat | i < |xs| ensures xs[i] == OfValue(lo + i) && Value(xs[i]) == lo + i && Valid(xs[i]) && InBlock(xs[i], address, size) {
      ValueOfValue(lo + i, xs[i]);
      BlockArithmetic(lo + i, address, size);
    }
    forall x | Valid(x) && InBlock(x, address, size) ensures x in xs {
      BlockArithmetic(Value(x), address, size);
      ValueOfValue(Value(x), x);
      assert xs[Value(x) - lo] == OfValue(Value(x));
    }
  }

  lemma OctetsAreExact(octets: seq<string>)
    requires |octets| == 4 && forall i :: 0 <= i < 4 ==> OctetRange(octets[i]).Some?
    ensures var (a, b, c, d) := (OctetRange(octets[0]), OctetRange(octets[1]), OctetRange(octets[2]), OctetRange(octets[3]));
      && 0 <= a.value.0 && 0 <= b.value.0 && 0 <= c.value.0 && 0 <= d.value.0
      && var xs := Product(Numbers(a.value.0, a.value.1), Numbers(b.value.0, b.value.1), Numbers(c.value.0, c.value.1), Numbers(d.value.0, d.value.1));
      && Ascending(xs)
      && forall x: Address :: x in xs <==> Within(a, x.a) && Within(b, x.b) && Within(c, x.c) && Within(d, x.d)
  {
    RangeExact(octets[0]);
    RangeExact(octets[1]);
    RangeExact(octets[2]);
    RangeExact(octets[3]);
    hide OctetRange, NumbersRise, Ascending, Within;
    var (a, b, c, d) := (OctetRange(octets[0]).value, OctetRange(octets[1]).value, OctetRange(octets[2]).value, OctetRange(octets[3]).value);
    ProductExact(Numbers(a.0, a.1), Numbers(b.0, b.1), Numbers(c.0, c.1), Numbers(d.0, d.1));
  }

  /** A token expands to exactly the addresses it denotes, in ascending order. */
  lemma ExpansionIsExact(token: string, cidr: string -> Option<Network>)
    requires ExpandToken(token, cidr).Ok?
    ensures forall x :: x in ExpandToken(token, cidr).value <==> Denotes(token, x, cidr)
    ensures Ascending(ExpandToken(token, cidr).value)
  {
    hide Split, OctetRange, Ascending, InBlock, Usable, Within, Product, Numbers;
    if '/' in token {
      UsableExact(cidr(token).value.address, 32 - cidr(token).value.prefix);
    } else {
      OctetsAreExact(Split(token, '.'));
    }
  }

  predicate DenotedBy(tokens: seq<string>, x: Address, cidr: string -> Option<Network>) {
    exists i :: 0 <= i < |tokens| && tokens[i] != "" && Denotes(tokens[i], x, cidr)
  }

  lemma DenotedNext(tokens: seq<string>, x: Address, cidr: string -> Option<Network>)
    requires tokens != []
    ensures var t := tokens[|tokens| - 1];
      DenotedBy(tokens, x, cidr) <==> DenotedBy(tokens[..|tokens| - 1], x, cidr) || (t != "" && Denotes(t, x, cidr))
  {
    hide Denotes;
    assert forall i :: 0 <= i < |tokens| - 1 ==> tokens[i] == tokens[..|tokens| - 1][i];
  }

  lemma {:induction false} ExpandedIsExact(tokens: seq<string>, cidr: string -> Option<Network>, x: Address)
    requires Expanded(tokens, cidr).Ok?
    ensures x in Expanded(tokens, cidr).value <==> DenotedBy(tokens, x, cidr)
  {
    assert !DenotedBy([], x, cidr);
    hide ExpandToken, Denotes, Ascending, DenotedBy;
    if tokens != [] {
      var (init, t) := (tokens[..|tokens| - 1], tokens[|tokens| - 1]);
      ExpandedIsExact(init, cidr, x);
      DenotedNext(tokens, x, cidr);
      if t != "" { ExpansionIsExact(t, cidr); }
    }
  }

  /** Where an address first occurs in a list that has it. */
  function FirstAt(xs: seq<Address>, x: Address): (k: nat)
    requires x in xs
    ensures k < |xs| && xs[k] == x && x !in xs[..k]
  {
    if xs[0] == x then 0 else 1 + FirstAt(xs[1..], x)
  }

  lemma {:induction false} FirstAtIs(xs: seq<Address>, x: Address, m: nat)
    requires m < |xs| && xs[m] == x && x !in xs[..m]
    ensures FirstAt(xs, x) == m
  {
    if m > 0 {
      assert xs[..m][0] == xs[0] && xs[..m][1..] == xs[1..][..m - 1];
      FirstAtIs(xs[1..], x, m - 1);
    }
  }

  lemma FirstAtPrefix(xs: seq<Address>, x: Address)
    requires xs != [] && x in xs[..|xs| - 1]
    ensures FirstAt(xs, x) == FirstAt(xs[..|xs| - 1], x)
  {
    var (init, m) := (xs[..|xs| - 1], FirstAt(xs[..|xs| - 1], x));
    assert xs[m] == init[m] && init[..m] == xs[..m];
    FirstAtIs(xs, x, m);
  }

  /** The distinct addresses: the same ones, none twice, ordered by where they first occur. */
  lemma {:induction false} FirstsAre(xs: seq<Address>)
    ensures forall x :: x in Firsts(xs) <==> x in xs
    ensures forall i, j :: 0 <= i < j < |Firsts(xs)| ==> FirstAt(xs, Firsts(xs)[i]) < FirstAt(xs, Firsts(xs)[j])
  {
    if xs != [] {
      var (init, x) := (xs[..|xs| - 1], xs[|xs| - 1]);
      FirstsAre(init);
      assert xs == init + [x];
      forall y | y in init ensures FirstAt(xs, y) == FirstAt(init, y) { FirstAtPrefix(xs, y); }
      if x !in init { assert FirstAt(xs, x) == |init|; }
    }
  }

  /** A successful parse gives, without repetition and in order of first occurrence, exactly the addresses denoted by
      some token, at least one and at most 65536. */
  lemma TargetsAreExact(tokens: seq<string>, cidr: string -> Option<Network>)
    requires Accepted(Expanded(tokens, cidr))
    ensures var (all, r) := (Expanded(tokens, cidr).value, Firsts(Expanded(tokens, cidr).value));
      && 0 < |r| <= MAX_HOSTS
      && (forall x :: x in r <==> DenotedBy(tokens, x, cidr))
      && (forall i, j :: 0 <= i < j < |r| ==> r[i] != r[j] && r[i] in all && r[j] in all && FirstAt(all, r[i]) < FirstAt(all, r[j]))
  {
    var (all, r) := (Expanded(tokens, cidr).value, Firsts(Expanded(tokens, cidr).value));
    FirstsAre(all);
    forall x ensures x in r <==> DenotedBy(tokens, x, cidr) {
      ExpandedIsExact(tokens, cidr, x);
    }
    forall i, j | 0 <= i < j < |r| ensures r[i] in all && r[j] in all { assert r[i] in r && r[j] in r; }
  }

  // ---------------------------------------------------------------- all subnets

  predicate DenotedBySubnet(spec: string, x: Address, cidr: string -> Option<Network>) {
    Accepted(Expanded(Tokens(spec), cidr)) && DenotedBy(Tokens(spec), x, cidr)
  }

  predicate DenotedBySome(specs: seq<string>, x: Address, cidr: string -> Option<Network>) {
    exists i :: 0 <= i < |specs| && DenotedBySubnet(specs[i], x, cidr)
  }

  lemma SubnetsNext(specs: seq<string>, x: Address, cidr: string -> Option<Network>)
    requires specs != []
    ensures DenotedBySome(specs, x, cidr) <==> DenotedBySome(specs[..|specs| - 1], x, cidr) || DenotedBySubnet(specs[|specs| - 1], x, cidr)
  {
    hide DenotedBySubnet;
    assert forall i :: 0 <= i < |specs| - 1 ==> specs[i] == specs[..|specs| - 1][i];
  }

  lemma {:induction false} PooledIsExact(specs: seq<string>, cidr: string -> Option<Network>, x: Address)
    ensures x in Pooled(specs, cidr) <==> DenotedBySome(specs, x, cidr)
  {
    if specs != [] {
      var (init, last) := (specs[..|specs| - 1], specs[|specs| - 1]);
      hide Expanded, Tokens, DenotedBy, DenotedBySome, Accepted, Firsts;
      PooledIsExact(init, cidr, x);
      SubnetsNext(specs, x, cidr);
      if Accepted(Expanded(Tokens(last), cidr)) { TargetsAreExact(Tokens(last), cidr); }
    }
  }

  lemma FirstsDistinct(xs: seq<Address>)
    ensures forall i, j :: 0 <= i < j < |Firsts(xs)| ==> Firsts(xs)[i] != Firsts(xs)[j]
    ensures forall x :: x in Firsts(xs) <==> x in xs
  {
    FirstsAre(xs);
    forall i, j | 0 <= i < j < |Firsts(xs)| ensures Firsts(xs)[i] != Firsts(xs)[j] {
      assert FirstAt(xs, Firsts(xs)[i]) < FirstAt(xs, Firsts(xs)[j]);
    }
  }

  /** A scan probes no address twice, at most 65536, and only ones denoted by a valid subnet; below the cap it probes
      all of those. */
  lemma ScanTargetsAreExact(specs: seq<string>, cidr: string -> Option<Network>)
    ensures var r := Capped(Firsts(Pooled(specs, cidr)));
      && |r| <= MAX_HOSTS
      && (forall i, j :: 0 <= i < j < |r| ==> r[i] != r[j])
      && (forall x :: x in r ==> DenotedBySome(specs, x, cidr))
      && (|r| < MAX_HOSTS ==> forall x :: DenotedBySome(specs, x, cidr) ==> x in r)
  {
    var all := Pooled(specs, cidr);
    FirstsDistinct(all);
    hide Firsts, Pooled, DenotedBySome;
    forall x ensures x in all <==> DenotedBySome(specs, x, cidr) { PooledIsExact(specs, cidr, x); }
  }

  // ---------------------------------------------------------------- round trip

  lemma {:induction false} NumberOfDecimal(n: nat)
    ensures Number(Decimal(n)) == Some(n)
  {
    DecimalDigits(n);
    if n >= 10 {
      var (t, init) := (Decimal(n), Decimal(n / 10));
      NumberOfDecimal(n / 10);
      DecimalDigits(n / 10);
      assert t[..|t| - 1] == init && t[|t| - 1] == Digit(n % 10);
      assert IsDigit(init[|init| - 1]);
    }
  }

  lemma StripClean(s: string)
    requires s != [] && !IsSpace(s[0]) && !IsSpace(s[|s| - 1])
    ensures Strip(s) == s
  {
  }

  lemma OctetOfDecimal(n: nat)
    requires n < 256
    ensures OctetRange(Decimal(n)) == Some((n, n))
  {
    var t := Decimal(n);
    DecimalDigits(n);
    IntOfDecimal(n);
    assert IsDigit(t[0]) && !IsDigit("*"[0]);
  }

  lemma IntOfDecimal(n: nat)
    ensures IntOf(Decimal(n)) == Some(n) && Strip(Decimal(n)) == Decimal(n) && '-' !in Decimal(n)
  {
    var t := Decimal(n);
    DecimalDigits(n);
    assert IsDigit(t[0]) && IsDigit(t[|t| - 1]) && !IsDigit('-');
    StripClean(t);
    NumberOfDecimal(n);
  }

  lemma {:induction false} FindIs(s: string, c: char, k: nat)
    requires k < |s| && s[k] == c && c !in s[..k]
    ensures Find(s, c) == k
  {
    if k > 0 {
      assert s[..k][0] == s[0] && s[..k][1..] == s[1..][..k - 1];
      FindIs(s[1..], c, k - 1);
    }
  }

  lemma OctetWithDash(lo: string, hi: string)
    requires '-' !in lo && (lo == "" || (!IsSpace(lo[0]))) && (hi == "" || !IsSpace(hi[|hi| - 1]))
    ensures OctetRange(lo + "-" + hi) ==
      var from := if Strip(lo) != "" then IntOf(lo) else Some(0);
      var upto := if Strip(hi) != "" then IntOf(hi) else Some(255);
      if from.Some? && upto.Some? && 0 <= from.value <= upto.value <= 255 then Some((from.value, upto.value)) else None
  {
    hide Strip, IntOf, Find;
    var part := lo + "-" + hi;
    assert part[|lo|] == '-' && part[..|lo|] == lo && part[|lo| + 1..] == hi;
    assert part[0] == if lo == "" then '-' else lo[0];
    assert part[|part| - 1] == if hi == "" then '-' else hi[|hi| - 1];
    StripClean(part);
    FindIs(part, '-', |lo|);
  }

  /** Ranges as they are printed: both ends, one end left open, or a star. */
  lemma RangeRoundTrip(lo: nat, hi: nat)
    ensures OctetRange(Decimal(lo) + "-" + Decimal(hi)) == if lo <= hi <= 255 then Some((lo, hi)) else None
    ensures OctetRange(Decimal(lo) + "-" + "") == if lo <= 255 then Some((lo, 255)) else None
    ensures OctetRange("" + "-" + Decimal(hi)) == if hi <= 255 then Some((0, hi)) else None
    ensures OctetRange("*") == Some((0, 255))
  {
    IntOfDecimal(lo);
    IntOfDecimal(hi);
    DecimalDigits(lo);
    DecimalDigits(hi);
    assert IsDigit(Decimal(lo)[0]) && IsDigit(Decimal(hi)[|Decimal(hi)| - 1]);
    StripClean("*");
    assert OctetRange("*") == Some((0, 255));
    hide Decimal, Number, OctetRange;
    OctetWithDash(Decimal(lo), Decimal(hi));
    OctetWithDash(Decimal(lo), "");
    OctetWithDash("", Decimal(hi));
  }

  lemma {:induction false} SplitOne(s: string, sep: char)
    requires sep !in s
    ensures Split(s, sep) == [s]
  {
    if s != [] {
      SplitOne(s[1..], sep);
      assert s[0] in s && [s[0]] + s[1..] == s;
    }
  }

  lemma {:induction false} SplitHead(a: string, sep: char, b: string)
    requires sep !in a
    ensures Split(a + [sep] + b, sep) == [a] + Split(b, sep)
  {
    var s := a + [sep] + b;
    if a == [] {
      assert s[1..] == b;
    } else {
      SplitHead(a[1..], sep, b);
      assert s[1..] == a[1..] + [sep] + b && s[0] == a[0] && a[0] in a;
      assert [a[0]] + a[1..] == a;
    }
  }

  lemma {:induction false} ReplacedNone(s: string, old_: char, new_: char)
    requires old_ !in s
    ensures Replaced(s, old_, new_) == s
  {
    if s != [] { ReplacedNone(s[1..], old_, new_); }
  }

  lemma SplitFour(a: string, b: string, c: string, d: string)
    requires '.' !in a && '.' !in b && '.' !in c && '.' !in d
    ensures Split(a + "." + b + "." + c + "." + d, '.') == [a, b, c, d]
  {
    hide Split;
    var cd := c + ['.'] + d;
    var bcd := b + ['.'] + cd;
    assert a + "." + b + "." + c + "." + d == a + ['.'] + bcd;
    SplitHead(a, '.', bcd);
    SplitHead(b, '.', cd);
    SplitHead(c, '.', d);
    SplitOne(d, '.');
  }

  lemma SplitShown(x: Address)
    ensures Split(Show(x), '.') == [Decimal(x.a), Decimal(x.b), Decimal(x.c), Decimal(x.d)]
  {
    DecimalDigits(x.a);
    DecimalDigits(x.b);
    DecimalDigits(x.c);
    DecimalDigits(x.d);
    hide Split, Decimal;
    SplitFour(Decimal(x.a), Decimal(x.b), Decimal(x.c), Decimal(x.d));
  }

  lemma ShowIsPlain(x: Address)
    ensures Show(x) != [] && IsDigit(Show(x)[0]) && IsDigit(Show(x)[|Show(x)| - 1])
    ensures forall c :: c in Show(x) ==> IsDigit(c) || c == '.'
  {
    DecimalDigits(x.a);
    DecimalDigits(x.b);
    DecimalDigits(x.c);
    DecimalDigits(x.d);
    assert Show(x)[0] == Decimal(x.a)[0] && Show(x)[|Show(x)| - 1] == Decimal(x.d)[|Decimal(x.d)| - 1];
  }

  lemma TokensOfShown(x: Address)
    ensures Tokens(Show(x)) == [Show(x)]
  {
    ShowIsPlain(x);
    ReplacedNone(Show(x), ';', ',');
    SplitOne(Show(x), ',');
    StripClean(Show(x));
  }

  lemma ExpandShown(x: Address, cidr: string -> Option<Network>)
    requires Valid(x)
    ensures ExpandToken(Show(x), cidr) == Ok([x])
  {
    ShowIsPlain(x);
    SplitShown(x);
    OctetOfDecimal(x.a);
    OctetOfDecimal(x.b);
    OctetOfDecimal(x.c);
    OctetOfDecimal(x.d);
    assert '/' !in Show(x);
    hide Show, Split, Decimal, OctetRange;
    assert Numbers(x.a, x.a) == [x.a] && Numbers(x.b, x.b) == [x.b] && Numbers(x.c, x.c) == [x.c] && Numbers(x.d, x.d) == [x.d];
    assert Fourths(x.a, x.b, x.c, [x.d]) == [x];
    assert Thirds(x.a, x.b, [x.c], [x.d]) == [x];
    assert Seconds(x.a, [x.b], [x.c], [x.d]) == [x];
    assert Product([x.a], [x.b], [x.c], [x.d]) == [x];
  }

  /** A printed address parses back to itself, and so different addresses print differently. */
  lemma BareAddressRoundTrip(x: Address, cidr: string -> Option<Network>)
    requires Valid(x)
    ensures Accepted(Expanded(Tokens(Show(x)), cidr)) && Firsts(Expanded(Tokens(Show(x)), cidr).value) == [x]
  {
    TokensOfShown(x);
    ExpandShown(x, cidr);
    ShowIsPlain(x);
    var t := Show(x);
    hide Show, ExpandToken, Tokens;
    assert [t][..0] == [];
    assert Expanded([], cidr) == Ok([]);
    assert Expanded([t], cidr) == Ok([] + [x]);
    assert [x][..0] == [] && Firsts([x]) == [x];
  }

  // ---------------------------------------------------------------- what is accepted

  predicate Unseparated(part: string) { ',' !in part && ';' !in part }

  /** A specification is cut at its commas and semicolons, and the parts are stripped. */
  lemma {:induction false} TokensLaw(part: string, sep: char, rest: string)
    requires Unseparated(part) && (sep == ',' || sep == ';')
    ensures Tokens(part) == [Strip(part)]
    ensures Tokens(part + [sep] + rest) == [Strip(part)] + Tokens(rest)
  {
    hide Replaced, Split, StripAll, Strip;
    ReplacedNone(part, ';', ',');
    SplitAt(part, Replaced(rest, ';', ','));
    SeparatorReplaced(part, sep, rest);
    var parts := Split(Replaced(rest, ';', ','), ',');
    assert StripAll([part] + parts) == [Strip(part)] + StripAll(parts);
    assert StripAll([part]) == [Strip(part)];
  }

  lemma SeparatorReplaced(part: string, sep: char, rest: string)
    requires Unseparated(part) && (sep == ',' || sep == ';')
    ensures Replaced(part + [sep] + rest, ';', ',') == part + [','] + Replaced(rest, ';', ',')
  {
    ReplacedConcat(part, [sep] + rest);
    assert ([sep] + rest)[1..] == rest && part + [sep] + rest == part + ([sep] + rest);
    ReplacedNone(part, ';', ',');
  }

  lemma {:induction false} ReplacedConcat(a: string, b: string)
    ensures Replaced(a + b, ';', ',') == Replaced(a, ';', ',') + Replaced(b, ';', ',')
  {
    if a == "" {
      assert a + b == b;
    } else {
      ReplacedConcat(a[1..], b);
      assert (a + b)[1..] == a[1..] + b;
    }
  }

  lemma {:induction false} SplitAt(part: string, rest: string)
    requires ',' !in part
    ensures Split(part, ',') == [part]
    ensures Split(part + [','] + rest, ',') == [part] + Split(rest, ',')
  {
    var all := part + [','] + rest;
    if part == "" {
      assert all[1..] == rest;
    } else {
      SplitAt(part[1..], rest);
      assert all[1..] == part[1..] + [','] + rest;
      assert part == [part[0]] + part[1..];
    }
  }

  /** All tokens expand if each one does, blank ones aside. */
  lemma {:induction false} ExpandedOkIff(tokens: seq<string>, cidr: string -> Option<Network>)
    ensures Expanded(tokens, cidr).Ok? <==> forall i :: 0 <= i < |tokens| && tokens[i] != "" ==> ExpandToken(tokens[i], cidr).Ok?
  {
    hide ExpandToken;
    if tokens != [] {
      var n := |tokens| - 1;
      ExpandedOkIff(tokens[..n], cidr);
      assert forall i :: 0 <= i < n ==> tokens[..n][i] == tokens[i];
    }
  }

  /** A token with a slash expands if it is an IPv4 block of at most 65536 addresses; any other one if it is four octets
      that each stand for a range. */
  lemma TokenOkIff(token: string, cidr: string -> Option<Network>)
    ensures '/' in token ==>
      (ExpandToken(token, cidr).Ok? <==>
        cidr(token).Some? && cidr(token).value.V4? && 16 <= cidr(token).value.prefix <= 32 && cidr(token).value.address < 0x1_0000_0000)
    ensures '/' !in token ==>
      (ExpandToken(token, cidr).Ok? <==>
        |Split(token, '.')| == 4 && forall i :: 0 <= i < 4 ==> OctetRange(Split(token, '.')[i]).Some?)
  {
    if '/' in token { BlockOkIff(token, cidr); } else { OctetsOkIff(Split(token, '.')); }
    hide ExpandOctets, OctetRange;
  }

  lemma BlockOkIff(token: string, cidr: string -> Option<Network>)
    requires '/' in token
    ensures ExpandToken(token, cidr).Ok? <==>
      cidr(token).Some? && cidr(token).value.V4? && 16 <= cidr(token).value.prefix <= 32 && cidr(token).value.address < 0x1_0000_0000
  {
    hide Usable, Pow2, ExpandOctets;
    PowIs();
    if cidr(token).Some? && cidr(token).value.V4? && cidr(token).value.prefix <= 32 { BlockSize(32 - cidr(token).value.prefix); }
  }

  lemma OctetsOkIff(octets: seq<string>)
    ensures ExpandOctets(octets).Ok? <==> |octets| == 4 && forall i :: 0 <= i < 4 ==> OctetRange(octets[i]).Some?
  {
    hide OctetRange, Product, Span;
  }

  lemma BlockSize(n: nat)
    ensures Pow2(n) <= 65536 <==> n <= 16
  {
    assert Pow2(16) == 65536 by { PowSplit(8, 8); assert Pow2(8) == 256; }
    if n <= 16 {
      PowSplit(n, 16 - n);
      Scaled(1, Pow2(16 - n), Pow2(n));
    } else {
      PowSplit(16, n - 16);
      PowGrows(n - 16);
      Scaled(2, Pow2(n - 16), 65536);
    }
  }

  lemma {:induction false} PowGrows(n: nat)
    requires n >= 1
    ensures Pow2(n) >= 2
  {
  }
}
