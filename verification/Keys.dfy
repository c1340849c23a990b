/** The key texts of the registry, and which prefix range each key lies in. */
module Keys {
  import opened Wrappers
  import opened Records
  import opened Store
  import opened Prefix

  datatype Family = Instances | Slots | Releases | Hosts

  function Ascii(s: string): seq<Byte> {
    seq(|s|, i requires 0 <= i < |s| => (s[i] as int % 256) as Byte)
  }

  function Decimal(n: nat): string {
    (if n < 10 then "" else Decimal(n / 10)) + [('0' as int + n % 10) as char]
  }

  function PairText(h: nat, u: nat): string {
    Decimal(h) + "/" + Decimal(u)
  }

  const KEY_PREFIX := "/openstack-incus/idmaps/v3"

  function Root(cfg: Config): seq<Byte> {
    Ascii(KEY_PREFIX) + Ascii("/" + cfg.namespace + "/")
  }

  function ControlRoot(cfg: Config): seq<Byte> {
    Ascii(KEY_PREFIX) + Ascii("-control/" + cfg.namespace + "/")
  }

  /** The part of a key below the namespace, or below the control namespace. */
  function Tail(k: Key): string {
    match k
    case ConfigKey => "config"
    case InstanceKey(u) => "instances/" + Decimal(u)
    case SlotKey(n) => "slots/" + Decimal(n)
    case ReleaseKey(u) => "releases/" + Decimal(u)
    case HostKey(h, u) => "hosts/" + PairText(h, u)
    case FenceKey(h, u) => "fences/" + PairText(h, u)
    case StrayKey(name) => name
    case CoordinatorKey => "coordinator"
    case FailureKey => "failure"
  }

  function KeyText(cfg: Config, k: Key): seq<Byte> {
    (if k.CoordinatorKey? || k.FailureKey? then ControlRoot(cfg) else Root(cfg)) + Ascii(Tail(k))
  }

  function Segment(f: Family): string {
    match f
    case Instances => "instances/"
    case Slots => "slots/"
    case Releases => "releases/"
    case Hosts => "hosts/"
  }

  /** The prefix that `_count_range` counts for a family. */
  function FamilyPrefix(cfg: Config, f: Family): seq<Byte> {
    Root(cfg) + Ascii(Segment(f))
  }

  /** The keys of a family, and strays that were put below its name. */
  predicate Belongs(k: Key, f: Family) {
    match k
    case InstanceKey(_) => f.Instances?
    case SlotKey(_) => f.Slots?
    case ReleaseKey(_) => f.Releases?
    case HostKey(_, _) => f.Hosts?
    case StrayKey(name) => Ascii(Segment(f)) <= Ascii(name)
    case _ => false
  }

  lemma AsciiAppend(s: string, t: string)
    ensures Ascii(s + t) == Ascii(s) + Ascii(t)
  {
  }

  lemma CommonPrefix<T>(a: seq<T>, b: seq<T>, c: seq<T>)
    ensures a + b <= a + c <==> b <= c
  {
    if a + b <= a + c {
      forall i | 0 <= i < |b| ensures b[i] == c[i] {
        assert (a + b)[|a| + i] == (a + c)[|a| + i];
      }
    }
  }

  /** Below the namespace, a key starts with a family's name exactly when it belongs to the family. */
  lemma SegmentDecides(k: Key, f: Family)
    requires !k.CoordinatorKey? && !k.FailureKey?
    ensures Ascii(Segment(f)) <= Ascii(Tail(k)) <==> Belongs(k, f)
  {
    if !k.StrayKey? {
      var s, t := Ascii(Segment(f)), Ascii(Tail(k));
      assert s <= t ==> s[0] == t[0];
      if Belongs(k, f) {
        AsciiAppend(Segment(f), Tail(k)[|Segment(f)|..]);
        assert Tail(k) == Segment(f) + Tail(k)[|Segment(f)|..];
      }
    }
  }

  lemma ControlApart(cfg: Config, k: Key, f: Family)
    requires k.CoordinatorKey? || k.FailureKey?
    ensures !(FamilyPrefix(cfg, f) <= KeyText(cfg, k))
  {
    var n := |KEY_PREFIX|;
    assert FamilyPrefix(cfg, f)[n] == '/' as int as Byte;
    assert KeyText(cfg, k)[n] == '-' as int as Byte;
  }

  /** A key lies in the range counted for a family if and only if it belongs to the family. */
  lemma FamilyRange(cfg: Config, k: Key, f: Family, end: seq<Byte>)
    requires IsEndOf(FamilyPrefix(cfg, f), end)
    ensures InRange(KeyText(cfg, k), FamilyPrefix(cfg, f), end) <==> Belongs(k, f)
  {
    RangeIsPrefix(FamilyPrefix(cfg, f), end, KeyText(cfg, k));
    if k.CoordinatorKey? || k.FailureKey? {
      ControlApart(cfg, k, f);
    } else {
      CommonPrefix(Root(cfg), Ascii(Segment(f)), Ascii(Tail(k)));
      SegmentDecides(k, f);
    }
  }

  // ---- different keys have different texts ----------------------------------------------------

  predicate Digits(s: string) {
    forall i | 0 <= i < |s| :: '0' <= s[i] <= '9'
  }

  lemma {:induction false} DecimalDigits(n: nat)
    ensures Digits(Decimal(n)) && Decimal(n) != ""
  {
    if n >= 10 {
      DecimalDigits(n / 10);
    }
  }

  lemma {:induction false} DecimalInjective(m: nat, n: nat)
    requires Decimal(m) == Decimal(n)
    ensures m == n
  {
    var s, k := Decimal(m), |Decimal(m)| - 1;
    DecimalDigits(m / 10);
    DecimalDigits(n / 10);
    assert s[k] == ('0' as int + m % 10) as char && s[k] == ('0' as int + n % 10) as char;
    assert s[..k] == (if m < 10 then "" else Decimal(m / 10)) && s[..k] == (if n < 10 then "" else Decimal(n / 10));
    if m >= 10 && n >= 10 {
      DecimalInjective(m / 10, n / 10);
    }
  }

  lemma PairInjective(h: nat, u: nat, h': nat, u': nat)
    requires PairText(h, u) == PairText(h', u')
    ensures h == h' && u == u'
  {
    var s, i, j := PairText(h, u), |Decimal(h)|, |Decimal(h')|;
    DecimalDigits(h);
    DecimalDigits(h');
    assert s[i] == '/' && s[j] == '/';
    assert forall k | 0 <= k < i :: s[k] == Decimal(h)[k];
    assert forall k | 0 <= k < j :: s[k] == Decimal(h')[k];
    assert s[..i] == Decimal(h) && s[..j] == Decimal(h');
    assert s[i + 1..] == Decimal(u) && s[j + 1..] == Decimal(u');
    DecimalInjective(h, h');
    DecimalInjective(u, u');
  }

  predicate Latin(s: string) {
    forall i | 0 <= i < |s| :: s[i] as int < 256
  }

  lemma AsciiInjective(s: string, t: string)
    requires Latin(s) && Latin(t) && Ascii(s) == Ascii(t)
    ensures s == t
  {
    forall i | 0 <= i < |s| ensures s[i] == t[i] {
      assert Ascii(s)[i] == Ascii(t)[i];
    }
  }

  lemma SameRest(a: string, b: string, c: string)
    requires a + b == a + c
    ensures b == c
  {
    assert b == (a + b)[|a|..] && c == (a + c)[|a|..];
  }

  lemma LatinConcat(s: string, t: string)
    requires Latin(s) && Latin(t)
    ensures Latin(s + t)
  {
  }

  lemma DecimalLatin(n: nat)
    ensures Latin(Decimal(n))
  {
    DecimalDigits(n);
  }

  lemma PairLatin(h: nat, u: nat)
    ensures Latin(PairText(h, u))
  {
    DecimalLatin(h);
    DecimalLatin(u);
  }

  lemma TailLatin(k: Key)
    requires !k.StrayKey?
    ensures Latin(Tail(k)) && Tail(k) != ""
  {
    match k
    case InstanceKey(u) =>
      DecimalLatin(u);
      LatinConcat("instances/", Decimal(u));
    case SlotKey(n) =>
      DecimalLatin(n);
      LatinConcat("slots/", Decimal(n));
    case ReleaseKey(u) =>
      DecimalLatin(u);
      LatinConcat("releases/", Decimal(u));
    case HostKey(h, u) =>
      PairLatin(h, u);
      LatinConcat("hosts/", PairText(h, u));
    case FenceKey(h, u) =>
      PairLatin(h, u);
      LatinConcat("fences/", PairText(h, u));
    case _ =>
  }

  /** Within one namespace the text below it tells the key. */
  lemma TailInjective(k: Key, l: Key)
    requires !k.StrayKey? && !l.StrayKey? && Tail(k) == Tail(l)
    requires (k.CoordinatorKey? || k.FailureKey?) <==> (l.CoordinatorKey? || l.FailureKey?)
    ensures k == l
  {
    assert Tail(k)[0] == Tail(l)[0];
    match k
    case InstanceKey(u) =>
      SameRest("instances/", Decimal(u), Decimal(l.instance));
      DecimalInjective(u, l.instance);
    case SlotKey(n) =>
      assert Tail(k)[1] == Tail(l)[1];
      SameRest("slots/", Decimal(n), Decimal(l.slot));
      DecimalInjective(n, l.slot);
    case ReleaseKey(u) =>
      SameRest("releases/", Decimal(u), Decimal(l.instance));
      DecimalInjective(u, l.instance);
    case HostKey(h, u) =>
      SameRest("hosts/", PairText(h, u), PairText(l.host, l.instance));
      PairInjective(h, u, l.host, l.instance);
    case FenceKey(h, u) =>
      SameRest("fences/", PairText(h, u), PairText(l.host, l.instance));
      PairInjective(h, u, l.host, l.instance);
    case _ =>
  }

  predicate Control(k: Key) {
    k.CoordinatorKey? || k.FailureKey?
  }

  lemma RootsApart(cfg: Config, k: Key, l: Key)
    requires KeyText(cfg, k) == KeyText(cfg, l)
    ensures Control(k) <==> Control(l)
  {
    var n := |KEY_PREFIX|;
    assert KeyText(cfg, k)[n] == (if Control(k) then '-' else '/') as int as Byte;
    assert KeyText(cfg, l)[n] == (if Control(l) then '-' else '/') as int as Byte;
  }

  /** Two keys that the allocator knows never have the same text. */
  lemma KeyTextInjective(cfg: Config, k: Key, l: Key)
    requires !k.StrayKey? && !l.StrayKey? && KeyText(cfg, k) == KeyText(cfg, l)
    ensures k == l
  {
    RootsApart(cfg, k, l);
    var root := if Control(k) then ControlRoot(cfg) else Root(cfg);
    assert Ascii(Tail(k)) == KeyText(cfg, k)[|root|..] && Ascii(Tail(l)) == KeyText(cfg, l)[|root|..];
    TailLatin(k);
    TailLatin(l);
    AsciiInjective(Tail(k), Tail(l));
    TailInjective(k, l);
  }

  // ---- counting ---------------------------------------------------------------------------------

  ghost function KeysOf(db: Db, f: Family): set<Key> {
    set k | k in db && Belongs(k, f)
  }

  /** What etcd has of a family: its keys' texts. */
  ghost function TextsOf(cfg: Config, db: Db, f: Family): set<seq<Byte>> {
    set k | k in KeysOf(db, f) :: KeyText(cfg, k)
  }

  /** `_count_range`: what a server counts in the range are the texts of the family. */
  method CountFamily(cfg: Config, db: Db, f: Family) returns (count: nat)
    ensures count == |TextsOf(cfg, db, f)|
  {
    var prefix := FamilyPrefix(cfg, f);
    assert prefix[|prefix| - 1] == '/' as int as Byte;
    var end := PrefixRangeEnd(prefix);
    var texts := set k | k in db :: KeyText(cfg, k);
    var counted := set t | t in texts && InRange(t, prefix, end.value);
    forall k | k in db ensures InRange(KeyText(cfg, k), prefix, end.value) <==> k in KeysOf(db, f) {
      FamilyRange(cfg, k, f, end.value);
    }
    CountedTexts(cfg, db, f, prefix, end.value, counted);
    count := |counted|;
  }

  lemma CountedTexts(cfg: Config, db: Db, f: Family, prefix: seq<Byte>, end: seq<Byte>, counted: set<seq<Byte>>)
    requires counted == set t | t in (set k | k in db :: KeyText(cfg, k)) && InRange(t, prefix, end)
    requires forall k | k in db :: InRange(KeyText(cfg, k), prefix, end) <==> k in KeysOf(db, f)
    ensures counted == TextsOf(cfg, db, f)
  {
    forall t ensures t in counted <==> t in TextsOf(cfg, db, f) {
      if t in counted {
        var k :| k in db && KeyText(cfg, k) == t;
        assert k in KeysOf(db, f);
      }
      if t in TextsOf(cfg, db, f) {
        var k :| k in KeysOf(db, f) && KeyText(cfg, k) == t;
        assert k in db;
      }
    }
  }

  /** Among keys that the allocator knows, counting texts is counting keys. */
  lemma {:induction false} TextsAreKeys(cfg: Config, keys: set<Key>)
    requires forall k | k in keys :: !k.StrayKey?
    ensures |set k | k in keys :: KeyText(cfg, k)| == |keys|
  {
    var texts := set k | k in keys :: KeyText(cfg, k);
    if keys != {} {
      var k :| k in keys;
      var rest := set l | l in keys - {k} :: KeyText(cfg, l);
      TextsAreKeys(cfg, keys - {k});
      forall l | l in keys - {k} ensures KeyText(cfg, l) != KeyText(cfg, k) {
        if KeyText(cfg, l) == KeyText(cfg, k) {
          KeyTextInjective(cfg, l, k);
        }
      }
      assert texts == rest + {KeyText(cfg, k)};
    }
  }
}
