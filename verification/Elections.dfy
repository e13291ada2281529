/** The "elect one" loops of the collectors: an address, an antivirus, a session.

    Each loop keeps a running best under an order of its own.  The order is shown to be a
    strict weak order, and the loop to return a maximum of it, so that what is reported
    does not depend on the order in which Windows enumerates the candidates. */
module Elections {
  import opened Basics
  import opened Text

  // --- The loop ---------------------------------------------------------------

  /** Irreflexive and transitive, and so is incomparability. */
  ghost predicate StrictWeakOrder<T(!new)>(better: (T, T) -> bool) {
    && (forall a :: !better(a, a))
    && (forall a, b, c :: better(a, b) && better(b, c) ==> better(a, c))
    && (forall a, b, c :: better(a, c) ==> better(a, b) || better(b, c))
  }

  function Elect<T>(cs: seq<T>, usable: T -> bool, better: (T, T) -> bool): Option<T> {
    if cs == [] then None
    else
      var best := Elect(cs[..|cs| - 1], usable, better);
      var c := cs[|cs| - 1];
      if usable(c) && (best.None? || better(c, best.value)) then Some(c) else best
  }

  method ElectOne<T>(cs: seq<T>, usable: T -> bool, better: (T, T) -> bool) returns (best: Option<T>)
    ensures best == Elect(cs, usable, better)
  {
    best := None;
    for i := 0 to |cs|
      invariant best == Elect(cs[..i], usable, better)
    {
      assert cs[..i + 1][..i] == cs[..i];
      if usable(cs[i]) && (best.None? || better(cs[i], best.value)) {
        best := Some(cs[i]);
      }
    }
    assert cs[..|cs|] == cs;
  }

  ghost predicate Maximum<T>(cs: seq<T>, usable: T -> bool, better: (T, T) -> bool, best: Option<T>) {
    match best
    case None => forall c :: c in cs ==> !usable(c)
    case Some(w) => w in cs && usable(w) && forall c :: c in cs && usable(c) ==> !better(c, w)
  }

  /** The loop returns a usable candidate no usable candidate outranks, or none. */
  lemma {:induction false} ElectIsMaximum<T(!new)>(cs: seq<T>, usable: T -> bool, better: (T, T) -> bool)
    requires StrictWeakOrder(better)
    ensures Maximum(cs, usable, better, Elect(cs, usable, better))
  {
    if cs == [] {
    } else {
      var init := cs[..|cs| - 1];
      ElectIsMaximum(init, usable, better);
      assert forall c :: c in cs <==> c in init || c == cs[|cs| - 1];
    }
  }

  /** Two enumerations of the same candidates elect equivalent ones. */
  lemma ElectionIgnoresOrder<T(!new)>(xs: seq<T>, ys: seq<T>, usable: T -> bool, better: (T, T) -> bool)
    requires StrictWeakOrder(better) && multiset(xs) == multiset(ys)
    ensures var x, y := Elect(xs, usable, better), Elect(ys, usable, better);
      && (x.None? <==> y.None?)
      && (x.Some? ==> !better(x.value, y.value) && !better(y.value, x.value) && x.value in xs && y.value in xs)
  {
    ElectIsMaximum(xs, usable, better);
    ElectIsMaximum(ys, usable, better);
    assert forall c :: c in xs <==> c in multiset(xs);
    assert forall c :: c in ys <==> c in multiset(ys);
  }

  // --- What the order leaves open ---------------------------------------------

  /** A usable candidate no usable candidate outranks. */
  ghost predicate Top<T>(cs: seq<T>, usable: T -> bool, better: (T, T) -> bool, c: T) {
    c in cs && usable(c) && forall d :: d in cs && usable(d) ==> !better(d, c)
  }

  ghost predicate TopsAgree<T(!new), O>(cs: seq<T>, usable: T -> bool, better: (T, T) -> bool, seen: T -> O) {
    forall a, b :: Top(cs, usable, better, a) && Top(cs, usable, better, b) ==> seen(a) == seen(b)
  }

  /** Of candidates that tie at the top, the first enumerated is elected. */
  lemma {:induction false} FirstTopWins<T>(cs: seq<T>, usable: T -> bool, better: (T, T) -> bool)
    requires cs != [] && Top(cs, usable, better, cs[0])
    ensures Elect(cs, usable, better) == Some(cs[0])
  {
    var init := cs[..|cs| - 1];
    if |cs| == 1 {
      assert init == [];
    } else {
      assert init[0] == cs[0] && forall d :: d in init ==> d in cs;
      FirstTopWins(init, usable, better);
      assert cs[|cs| - 1] in cs;
    }
  }

  /** The enumeration that lists candidate `i` first. */
  function ToFront<T>(cs: seq<T>, i: nat): seq<T>
    requires i < |cs|
  {
    [cs[i]] + (cs[..i] + cs[i + 1..])
  }

  lemma ToFrontPermutes<T>(cs: seq<T>, i: nat)
    requires i < |cs|
    ensures multiset(ToFront(cs, i)) == multiset(cs)
  {
    assert cs == cs[..i] + ([cs[i]] + cs[i + 1..]);
  }

  lemma SameMembers<T>(xs: seq<T>, ys: seq<T>)
    requires multiset(xs) == multiset(ys)
    ensures forall c :: c in xs <==> c in ys
  {
    assert forall c :: c in xs <==> c in multiset(xs);
    assert forall c :: c in ys <==> c in multiset(ys);
  }

  lemma TopCanWin<T(!new)>(cs: seq<T>, usable: T -> bool, better: (T, T) -> bool, c: T) returns (ys: seq<T>)
    requires Top(cs, usable, better, c)
    ensures multiset(ys) == multiset(cs) && Elect(ys, usable, better) == Some(c)
  {
    var i :| 0 <= i < |cs| && cs[i] == c;
    ys := ToFront(cs, i);
    ToFrontPermutes(cs, i);
    SameMembers(ys, cs);
    FirstTopWins(ys, usable, better);
  }

  /** Every enumeration of the candidates elects one of which the same is seen. */
  ghost predicate Settled<T(!new), O>(xs: seq<T>, usable: T -> bool, better: (T, T) -> bool, seen: T -> O)
    requires Elect(xs, usable, better).Some?
  {
    forall ys :: multiset(ys) == multiset(xs) ==>
      var x, y := Elect(xs, usable, better), Elect(ys, usable, better);
      y.Some? && seen(y.value) == seen(x.value)
  }

  /** What is seen of the elected candidate is the same for every enumeration if and only
      if the candidates at the top agree in it. */
  lemma SettledExactly<T(!new), O>(xs: seq<T>, usable: T -> bool, better: (T, T) -> bool, seen: T -> O)
    requires StrictWeakOrder(better) && Elect(xs, usable, better).Some?
    ensures Settled(xs, usable, better, seen) <==> TopsAgree(xs, usable, better, seen)
  {
    ElectIsMaximum(xs, usable, better);
    if TopsAgree(xs, usable, better, seen) {
      forall ys | multiset(ys) == multiset(xs)
        ensures var x, y := Elect(xs, usable, better), Elect(ys, usable, better);
          y.Some? && seen(y.value) == seen(x.value)
      {
        SameMembers(xs, ys);
        ElectIsMaximum(ys, usable, better);
        assert Top(xs, usable, better, Elect(xs, usable, better).value);
        assert Top(xs, usable, better, Elect(ys, usable, better).value);
      }
    } else {
      var a, b :| Top(xs, usable, better, a) && Top(xs, usable, better, b) && seen(a) != seen(b);
      var ya := TopCanWin(xs, usable, better, a);
      var yb := TopCanWin(xs, usable, better, b);
    }
  }

  lemma AgreeAlike<T(!new), O, P>(cs: seq<T>, usable: T -> bool, better: (T, T) -> bool, f: T -> O, g: T -> P)
    requires forall a, b :: Top(cs, usable, better, a) && Top(cs, usable, better, b) ==>
      (f(a) == f(b) <==> g(a) == g(b))
    ensures TopsAgree(cs, usable, better, f) <==> TopsAgree(cs, usable, better, g)
  {
  }

  lemma TopsTie<T>(cs: seq<T>, usable: T -> bool, better: (T, T) -> bool, a: T, b: T)
    requires Top(cs, usable, better, a) && Top(cs, usable, better, b)
    ensures !better(a, b) && !better(b, a)
  {
  }

  // --- Addresses --------------------------------------------------------------

  /** A 4-byte or a 16-byte address, by value; `NoIp` is a nil one. */
  datatype Ip = NoIp | V4(low: nat) | V6(high: nat)

  const MAPPED: nat := 0xFFFF_0000_0000
  const TWO32: nat := 0x1_0000_0000

  /** `To16`: a 4-byte address as its mapped 16-byte form. */
  function To16(ip: Ip): nat {
    match ip
    case NoIp => 0
    case V4(a) => MAPPED + a % TWO32
    case V6(a) => a
  }

  predicate IsV4(ip: Ip) {
    MAPPED <= To16(ip) < MAPPED + TWO32
  }

  datatype RawAddress = RawAddress(ip: Ip, mac: seq<nat>, prefixLen: nat, ifIndex: nat, metric: nat, hasGateway: bool)

  /** Not nil, unspecified, loopback, link-local or multicast. */
  predicate UsableAddress(ip: Ip) {
    var a := To16(ip);
    ip != NoIp &&
    if IsV4(ip) then
      var v := a - MAPPED;
      v != 0 && v / 0x100_0000 != 127 && v / 0x1_0000 != 0xA9FE && !(224 <= v / 0x100_0000 <= 239)
    else
      var top := a / 0x1_0000_0000_0000_0000_0000_0000_0000;
      a > 1 && !(0xFE80 <= top <= 0xFEBF) && !(0xFF00 <= top)
  }

  predicate Reachable(a: RawAddress) {
    UsableAddress(a.ip)
  }

  predicate BetterAddress(a: RawAddress, b: RawAddress) {
    if IsV4(a.ip) != IsV4(b.ip) then IsV4(a.ip)
    else if a.hasGateway != b.hasGateway then a.hasGateway
    else if a.metric != b.metric then a.metric < b.metric
    else if a.ifIndex != b.ifIndex then a.ifIndex < b.ifIndex
    else To16(a.ip) < To16(b.ip)
  }

  lemma AddressOrder()
    ensures StrictWeakOrder(BetterAddress)
  {
  }

  function UsablePrefix(a: RawAddress): nat {
    if a.prefixLen == 0 || a.prefixLen > (if IsV4(a.ip) then 32 else 128) then 0 else a.prefixLen
  }

  function ElectAddress(cs: seq<RawAddress>): Option<RawAddress> {
    Elect(cs, Reachable, BetterAddress)
  }

  /** The address reported does not depend on the enumeration; nor do the MAC and the
      mask when no two candidates share their interface index and their address. */
  lemma AddressIgnoresOrder(xs: seq<RawAddress>, ys: seq<RawAddress>)
    requires multiset(xs) == multiset(ys)
    ensures var x, y := ElectAddress(xs), ElectAddress(ys);
      && (x.None? <==> y.None?)
      && (x.Some? ==>
            UsableAddress(x.value.ip) && To16(x.value.ip) == To16(y.value.ip) && x.value.ifIndex == y.value.ifIndex)
      && (x.Some?
            && (forall a, b :: a in xs && b in xs && a.ifIndex == b.ifIndex && To16(a.ip) == To16(b.ip) ==> a == b) ==>
            x == y && UsablePrefix(x.value) == UsablePrefix(y.value))
  {
    AddressOrder();
    ElectionIgnoresOrder(xs, ys, Reachable, BetterAddress);
    ElectIsMaximum(xs, Reachable, BetterAddress);
  }

  datatype NetworkInfo = NetworkInfo(ip: nat, mac: string, prefixLength: nat)

  /** What `elect` reports of the address elected; `format` stands for `formatMAC`. */
  function ReportAddress(format: seq<nat> -> string): RawAddress -> NetworkInfo {
    (a: RawAddress) => NetworkInfo(To16(a.ip), format(a.mac), UsablePrefix(a))
  }

  function MacAndMask(format: seq<nat> -> string): RawAddress -> (string, nat) {
    (a: RawAddress) => (format(a.mac), UsablePrefix(a))
  }

  /** The whole report is the same for every enumeration if and only if the candidates at
      the top, which share interface and address, agree in MAC and mask. */
  lemma AddressReportSettledExactly(xs: seq<RawAddress>, format: seq<nat> -> string)
    requires ElectAddress(xs).Some?
    ensures Settled(xs, Reachable, BetterAddress, ReportAddress(format))
      <==> TopsAgree(xs, Reachable, BetterAddress, MacAndMask(format))
  {
    AddressOrder();
    SettledExactly(xs, Reachable, BetterAddress, ReportAddress(format));
    forall a, b | Top(xs, Reachable, BetterAddress, a) && Top(xs, Reachable, BetterAddress, b)
      ensures ReportAddress(format)(a) == ReportAddress(format)(b) <==> MacAndMask(format)(a) == MacAndMask(format)(b)
    {
      TopsTie(xs, Reachable, BetterAddress, a, b);
    }
    AgreeAlike(xs, Reachable, BetterAddress, ReportAddress(format), MacAndMask(format));
  }

  /** The preferences, in order: an IPv4; an adapter with a gateway; the lowest metric; the
      lowest interface; the lowest address. */
  lemma AddressPreference(cs: seq<RawAddress>, c: RawAddress)
    requires c in cs && UsableAddress(c.ip)
    ensures ElectAddress(cs).Some?
    ensures var w := ElectAddress(cs).value;
      && w in cs && UsableAddress(w.ip)
      && (IsV4(c.ip) ==> IsV4(w.ip))
      && (IsV4(c.ip) == IsV4(w.ip) ==>
            && (c.hasGateway ==> w.hasGateway)
            && (c.hasGateway == w.hasGateway ==>
                  && w.metric <= c.metric
                  && (w.metric == c.metric ==>
                        && w.ifIndex <= c.ifIndex
                        && (w.ifIndex == c.ifIndex ==> To16(w.ip) <= To16(c.ip)))))
  {
    AddressOrder();
    ElectIsMaximum(cs, Reachable, BetterAddress);
  }

  /** Which IPv4 addresses are usable, octet by octet: not 0.0.0.0, not 127/8, not
      169.254/16, not 224/4; in four bytes or mapped into sixteen. */
  lemma UsableV4(a: nat, b: nat, c: nat, d: nat)
    requires a < 256 && b < 256 && c < 256 && d < 256
    ensures var n := a * 0x100_0000 + b * 0x1_0000 + c * 0x100 + d;
      && IsV4(V4(n)) && IsV4(V6(0xFFFF_0000_0000 + n)) && To16(V4(n)) == To16(V6(0xFFFF_0000_0000 + n))
      && (UsableAddress(V4(n)) <==>
            (a, b, c, d) != (0, 0, 0, 0) && a != 127 && !(a == 169 && b == 254) && !(224 <= a <= 239))
      && (UsableAddress(V6(0xFFFF_0000_0000 + n)) <==> UsableAddress(V4(n)))
  {
    var n := a * 0x100_0000 + b * 0x1_0000 + c * 0x100 + d;
    assert n / 0x100_0000 == a && n / 0x1_0000 == a * 0x100 + b;
  }

  /** And which IPv6 addresses: not ::, not ::1, not fe80::/10, not ff00::/8. */
  lemma UsableV6(top: nat, rest: nat)
    requires top < 0x1_0000 && rest < 0x1_0000_0000_0000_0000_0000_0000_0000
    requires top > 0 || rest >= 0x1_0000_0000_0000 || rest < 0xFFFF_0000_0000
    ensures var n := top * 0x1_0000_0000_0000_0000_0000_0000_0000 + rest;
      && !IsV4(V6(n))
      && (UsableAddress(V6(n)) <==> n != 0 && n != 1 && !(0xFE80 <= top <= 0xFEBF) && !(0xFF00 <= top))
    ensures !UsableAddress(NoIp)
  {
    var n := top * 0x1_0000_0000_0000_0000_0000_0000_0000 + rest;
    assert n / 0x1_0000_0000_0000_0000_0000_0000_0000 == top;
  }

  /** The mask reported: the prefix length, if it is one for its family. */
  lemma MaskReported(a: RawAddress)
    ensures 1 <= a.prefixLen <= (if IsV4(a.ip) then 32 else 128) ==> UsablePrefix(a) == a.prefixLen
    ensures !(1 <= a.prefixLen <= (if IsV4(a.ip) then 32 else 128)) ==> UsablePrefix(a) == 0
  {
  }

  // --- Antivirus products -----------------------------------------------------

  datatype Product = Product(name: string, state: nat, guid: string, exe: string)

  /** The real-time protection byte of `productState`. */
  function Enabled(state: nat): Option<bool> {
    var b := state / 256 % 256;
    if b == 0x10 || b == 0x11 then Some(true) else if b == 0x00 || b == 0x01 then Some(false) else None
  }

  function SignaturesUpToDate(state: nat): Option<bool> {
    var b := state % 256;
    if b == 0x00 then Some(true) else if b == 0x10 then Some(false) else None
  }

  function EnabledRank(e: Option<bool>): nat {
    match e
    case None => 1
    case Some(on) => if on then 2 else 0
  }

  predicate NameLess(a: string, b: string) {
    if b == "" then false
    else if a == "" then true
    else if a[0] != b[0] then a[0] < b[0]
    else NameLess(a[1..], b[1..])
  }

  lemma {:induction false} NameLessCompares(a: string, b: string)
    ensures !NameLess(a, a)
    ensures !(NameLess(a, b) && NameLess(b, a))
    ensures NameLess(a, b) || NameLess(b, a) || a == b
  {
    if a == "" {
    } else {
      NameLessCompares(a[1..], if b == "" then "" else b[1..]);
    }
    if a != "" && b != "" && a[0] == b[0] && a[1..] == b[1..] {
      assert a == [a[0]] + a[1..] && b == [b[0]] + b[1..];
    }
  }

  lemma {:induction false} NameLessTransitive(a: string, b: string, c: string)
    requires NameLess(a, b) && NameLess(b, c)
    ensures NameLess(a, c)
  {
    if a == "" || !(a[0] == b[0] == c[0]) {
    } else {
      NameLessTransitive(a[1..], b[1..], c[1..]);
    }
  }

  /** `isDefenderProduct`, a function of name, GUID and executable. */
  type Defender = (string, string, string) -> bool

  predicate IsDefender(defender: Defender, p: Product) {
    defender(p.name, p.guid, p.exe)
  }

  predicate Named(p: Product) {
    Trim(p.name) != ""
  }

  function BetterProduct(defender: Defender): (Product, Product) -> bool {
    (a: Product, b: Product) =>
      if EnabledRank(Enabled(a.state)) != EnabledRank(Enabled(b.state)) then
        EnabledRank(Enabled(a.state)) > EnabledRank(Enabled(b.state))
      else if IsDefender(defender, a) != IsDefender(defender, b) then !IsDefender(defender, a)
      else NameLess(a.name, b.name)
  }

  lemma ProductOrder(defender: Defender)
    ensures StrictWeakOrder(BetterProduct(defender))
  {
    var better := BetterProduct(defender);
    forall a: Product, b: Product, c: Product
      ensures !better(a, a)
      ensures better(a, b) && better(b, c) ==> better(a, c)
      ensures better(a, c) ==> better(a, b) || better(b, c)
    {
      NameLessCompares(a.name, b.name);
      NameLessCompares(b.name, c.name);
      if NameLess(a.name, b.name) && NameLess(b.name, c.name) { NameLessTransitive(a.name, b.name, c.name); }
      if NameLess(b.name, a.name) && NameLess(a.name, c.name) { NameLessTransitive(b.name, a.name, c.name); }
    }
  }

  function ElectProduct(cs: seq<Product>, defender: Defender): Option<Product> {
    Elect(cs, Named, BetterProduct(defender))
  }

  /** `buildAVProductState`; an empty report when no product has a name. */
  datatype AVState = AVState(name: string, enabled: Option<bool>, signaturesUpToDate: Option<bool>, isDefender: bool)

  function ReportProduct(defender: Defender): Product -> AVState {
    (p: Product) => AVState(Trim(p.name), Enabled(p.state), SignaturesUpToDate(p.state), IsDefender(defender, p))
  }

  /** Tied: neither outranks the other. */
  lemma TiedProducts(a: Product, b: Product, defender: Defender)
    ensures (!BetterProduct(defender)(a, b) && !BetterProduct(defender)(b, a)) <==>
      Enabled(a.state) == Enabled(b.state) && IsDefender(defender, a) == IsDefender(defender, b) && a.name == b.name
  {
    NameLessCompares(a.name, b.name);
  }

  lemma ProductIgnoresOrder(xs: seq<Product>, ys: seq<Product>, defender: Defender)
    requires multiset(xs) == multiset(ys)
    ensures var x, y := ElectProduct(xs, defender), ElectProduct(ys, defender);
      && (x.None? <==> y.None?)
      && (x.Some? ==>
            && x.value.name == y.value.name && Enabled(x.value.state) == Enabled(y.value.state)
            && IsDefender(defender, x.value) == IsDefender(defender, y.value))
  {
    ProductOrder(defender);
    ElectionIgnoresOrder(xs, ys, Named, BetterProduct(defender));
    var x, y := ElectProduct(xs, defender), ElectProduct(ys, defender);
    if x.Some? {
      TiedProducts(x.value, y.value, defender);
    }
  }

  function Freshness(p: Product): Option<bool> {
    SignaturesUpToDate(p.state)
  }

  /** The exact condition: what is reported of the antivirus is the same for every
      enumeration if and only if the products at the top agree in the freshness of their
      signatures. */
  lemma FreshnessSettledExactly(xs: seq<Product>, defender: Defender)
    requires ElectProduct(xs, defender).Some?
    ensures Settled(xs, Named, BetterProduct(defender), ReportProduct(defender))
      <==> TopsAgree(xs, Named, BetterProduct(defender), Freshness)
  {
    ProductOrder(defender);
    SettledExactly(xs, Named, BetterProduct(defender), ReportProduct(defender));
    forall a, b | Top(xs, Named, BetterProduct(defender), a) && Top(xs, Named, BetterProduct(defender), b)
      ensures ReportProduct(defender)(a) == ReportProduct(defender)(b) <==> Freshness(a) == Freshness(b)
    {
      TopsTie(xs, Named, BetterProduct(defender), a, b);
      TiedReports(a, b, defender);
    }
    AgreeAlike(xs, Named, BetterProduct(defender), ReportProduct(defender), Freshness);
  }

  lemma TiedReports(a: Product, b: Product, defender: Defender)
    requires !BetterProduct(defender)(a, b) && !BetterProduct(defender)(b, a)
    ensures ReportProduct(defender)(a) == ReportProduct(defender)(b) <==> Freshness(a) == Freshness(b)
  {
    TiedProducts(a, b, defender);
  }

  /** Two entries that tie and differ in the freshness of their signatures are reported
      with the one or the other, as Windows enumerates them. */
  lemma FreshnessFollowsEnumeration(a: Product, b: Product, defender: Defender)
    requires a.name == b.name && Enabled(a.state) == Enabled(b.state)
    requires IsDefender(defender, a) == IsDefender(defender, b)
    requires Named(a) && SignaturesUpToDate(a.state) != SignaturesUpToDate(b.state)
    ensures var x, y := ElectProduct([a, b], defender), ElectProduct([b, a], defender);
      && multiset([a, b]) == multiset([b, a]) && x.Some? && y.Some?
      && SignaturesUpToDate(x.value.state) != SignaturesUpToDate(y.value.state)
  {
    TiedProducts(a, b, defender);
    TiedProducts(a, a, defender);
    TiedProducts(b, b, defender);
    FirstTopWins([a, b], Named, BetterProduct(defender));
    FirstTopWins([b, a], Named, BetterProduct(defender));
  }

  /** Such entries exist, whatever makes a product Defender's: one product registered
      twice, running, its signatures current in one entry and stale in the other. */
  lemma FreshnessCanFlap(defender: Defender) returns (a: Product, b: Product)
    ensures ElectProduct([a, b], defender).Some? && ElectProduct([b, a], defender).Some?
    ensures SignaturesUpToDate(ElectProduct([a, b], defender).value.state)
         != SignaturesUpToDate(ElectProduct([b, a], defender).value.state)
  {
    a := Product("ESET", 0x1000, "", "");
    b := Product("ESET", 0x1010, "", "");
    assert !IsSpace('E') && !IsSpace('T') && Trimmed(a.name);
    TrimmedStays(a.name);
    FreshnessFollowsEnumeration(a, b, defender);
  }

  /** Names are compared character by character, as Go compares strings. */
  lemma {:induction false} NameLessIsLexicographic(a: string, b: string)
    ensures NameLess(a, b) <==> a < b || exists k :: FirstDifference(a, b, k) && a[k] < b[k]
  {
    if a == "" || b == "" {
    } else {
      NameLessIsLexicographic(a[1..], b[1..]);
      if a[0] == b[0] {
        assert a == [a[0]] + a[1..] && b == [b[0]] + b[1..];
        assert a < b <==> a[1..] < b[1..];
        if k :| FirstDifference(a[1..], b[1..], k) && a[1..][k] < b[1..][k] {
          assert a[..k + 1] == [a[0]] + a[1..][..k] && b[..k + 1] == [b[0]] + b[1..][..k];
          assert FirstDifference(a, b, k + 1);
        }
        if k :| FirstDifference(a, b, k) && a[k] < b[k] {
          assert k > 0;
          assert a[1..][..k - 1] == a[..k][1..] && b[1..][..k - 1] == b[..k][1..];
          assert FirstDifference(a[1..], b[1..], k - 1);
        }
      } else {
        assert FirstDifference(a, b, 0);
      }
    }
  }

  predicate FirstDifference(a: string, b: string, k: int) {
    0 <= k < |a| && k < |b| && a[..k] == b[..k] && a[k] != b[k]
  }

  /** The real-time protection byte of `productState` says it runs; or that it is off. */
  predicate Running(p: Product) {
    p.state / 0x100 % 0x100 == 0x10 || p.state / 0x100 % 0x100 == 0x11
  }

  predicate Stopped(p: Product) {
    p.state / 0x100 % 0x100 == 0x00 || p.state / 0x100 % 0x100 == 0x01
  }

  /** The preferences, in order: a running product, and anything before a stopped one; a
      third party before Defender; the lowest name. */
  lemma ProductPreference(cs: seq<Product>, defender: Defender, c: Product)
    requires c in cs && Trim(c.name) != ""
    ensures ElectProduct(cs, defender).Some?
    ensures var w := ElectProduct(cs, defender).value;
      && w in cs && Trim(w.name) != ""
      && (Running(c) ==> Running(w)) && (Stopped(w) ==> Stopped(c))
      && (Running(c) == Running(w) && Stopped(c) == Stopped(w) ==>
            && (!defender(c.name, c.guid, c.exe) ==> !defender(w.name, w.guid, w.exe))
            && (defender(c.name, c.guid, c.exe) == defender(w.name, w.guid, w.exe) ==> !NameLess(c.name, w.name)))
  {
    ProductOrder(defender);
    ElectIsMaximum(cs, Named, BetterProduct(defender));
    var w := ElectProduct(cs, defender).value;
    assert Named(c);
    assert !BetterProduct(defender)(c, w);
  }

  /** What is reported of it: what the bytes say, and nothing where they say nothing. */
  lemma ProductReported(p: Product, defender: Defender)
    ensures var r := ReportProduct(defender)(p);
      && (r.enabled == Some(true) <==> Running(p)) && (r.enabled == Some(false) <==> Stopped(p))
      && (r.signaturesUpToDate == Some(true) <==> p.state % 0x100 == 0x00)
      && (r.signaturesUpToDate == Some(false) <==> p.state % 0x100 == 0x10)
      && r.isDefender == defender(p.name, p.guid, p.exe) && r.name == Trim(p.name)
  {
  }

  // --- Sessions ---------------------------------------------------------------

  datatype RawSession = RawSession(id: nat, state: nat, user: string, domain: string, isConsole: bool)

  function SessionRank(s: RawSession): nat {
    (if s.state == 0 then 2 else 0) + (if s.isConsole then 1 else 0)
  }

  predicate BetterSession(a: RawSession, b: RawSession) {
    SessionRank(a) > SessionRank(b) || (SessionRank(a) == SessionRank(b) && a.id < b.id)
  }

  lemma SessionOrder()
    ensures StrictWeakOrder(BetterSession)
  {
  }

  function ElectSession(cs: seq<RawSession>): Option<RawSession> {
    Elect(cs, (_: RawSession) => true, BetterSession)
  }

  /** The preferences, in order: an active session (state 0), the console, the lowest id. */
  lemma SessionPreference(cs: seq<RawSession>, c: RawSession)
    requires c in cs
    ensures ElectSession(cs).Some?
    ensures var w := ElectSession(cs).value;
      && w in cs && (c.state == 0 ==> w.state == 0)
      && ((c.state == 0) == (w.state == 0) ==>
            && (c.isConsole ==> w.isConsole)
            && (c.isConsole == w.isConsole ==> w.id <= c.id))
  {
    SessionOrder();
    ElectIsMaximum(cs, (_: RawSession) => true, BetterSession);
  }

  /** With distinct ids the session reported does not depend on the enumeration. */
  lemma SessionIgnoresOrder(xs: seq<RawSession>, ys: seq<RawSession>)
    requires multiset(xs) == multiset(ys)
    requires forall a, b :: a in xs && b in xs && a.id == b.id ==> a == b
    ensures ElectSession(xs) == ElectSession(ys)
    ensures ElectSession(xs).None? <==> xs == []
  {
    SessionOrder();
    ElectionIgnoresOrder(xs, ys, (_: RawSession) => true, BetterSession);
    ElectIsMaximum(xs, (_: RawSession) => true, BetterSession);
    assert xs != [] ==> xs[0] in xs;
  }
}
