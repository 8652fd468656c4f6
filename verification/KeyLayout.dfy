// The substrate keys and small text records of the durable chain
// (crates/ehdb-l0/src/chain_store_durable.rs and chain_populator.rs).

module KeyLayout {
  import opened Basics
  import opened Ordering

  // --- decimal text -----------------------------------------------------------

  function Digit(d: nat): char
    requires d < 10
  {
    "0123456789"[d]
  }

  predicate IsDigit(c: char) { '0' <= c <= '9' }

  /** `n.to_string()`. */
  function Decimal(n: nat): string {
    if n < 10 then [Digit(n)] else Decimal(n / 10) + [Digit(n % 10)]
  }

  function Value(s: string): nat
    requires forall i | 0 <= i < |s| :: IsDigit(s[i])
  {
    if s == "" then 0
    else
      assert IsDigit(s[|s| - 1]);
      Value(s[..|s| - 1]) * 10 + (s[|s| - 1] as int - '0' as int)
  }

  /** `s.parse::<u64>()`: an optional plus sign, at least one digit, within range. */
  function ParseU64(s: string): Option<nat> {
    var body := if s != "" && s[0] == '+' then s[1..] else s;
    if body == "" || exists i :: 0 <= i < |body| && !IsDigit(body[i]) then None
    else if Value(body) > U64_MAX then None
    else Some(Value(body))
  }

  lemma {:induction false} DigitValue(d: nat)
    requires d < 10
    ensures IsDigit(Digit(d)) && Digit(d) as int - '0' as int == d
  { }

  lemma {:induction false} DecimalDigits(n: nat)
    ensures Decimal(n) != ""
    ensures forall i | 0 <= i < |Decimal(n)| :: IsDigit(Decimal(n)[i])
    ensures Value(Decimal(n)) == n
  {
    DigitValue(n % 10);
    if n < 10 {
    } else {
      DecimalDigits(n / 10);
    }
  }

  lemma {:induction false} ParseDecimal(n: nat)
    requires n <= U64_MAX
    ensures ParseU64(Decimal(n)) == Some(n)
  {
    DecimalDigits(n);
  }

  /** `{n:020}` and its general-width form. */
  function Padded(width: nat, n: nat): string {
    var text := Decimal(n);
    if |text| >= width then text else seq(width - |text|, _ => '0') + text
  }

  function Pow10(w: nat): nat {
    if w == 0 then 1 else 10 * Pow10(w - 1)
  }

  /** The same digits written one place at a time. */
  function Places(width: nat, n: nat): (s: string)
    ensures |s| == width
  {
    if width == 0 then "" else Places(width - 1, n / 10) + [Digit(n % 10)]
  }

  lemma {:induction false} PlacesOfZero(width: nat)
    ensures Places(width, 0) == seq(width, _ => '0')
  {
    if width > 0 {
      PlacesOfZero(width - 1);
    }
  }

  lemma {:induction false} PaddedIsPlaces(width: nat, n: nat)
    requires width >= 1 && n < Pow10(width)
    ensures Padded(width, n) == Places(width, n)
  {
    if n < 10 {
      PlacesOfZero(width - 1);
      assert Places(width, n) == seq(width - 1, _ => '0') + [Digit(n)];
    } else {
      PaddedIsPlaces(width - 1, n / 10);
    }
  }

  lemma {:induction false} LexLeAppend(a: string, b: string, x: char, y: char)
    requires |a| == |b|
    ensures LexLe(a + [x], b + [y]) <==> (if a == b then x <= y else LexLe(a, b))
  {
    if a != "" {
      assert (a + [x])[1..] == a[1..] + [x] && (b + [y])[1..] == b[1..] + [y];
      assert a == b <==> a[0] == b[0] && a[1..] == b[1..];
      LexLeAppend(a[1..], b[1..], x, y);
    }
  }

  /** Zero padding makes the lexical order of the text the numeric order. */
  lemma {:induction false} PlacesOrder(width: nat, m: nat, n: nat)
    requires m < Pow10(width) && n < Pow10(width)
    ensures LexLe(Places(width, m), Places(width, n)) <==> m <= n
    ensures Places(width, m) == Places(width, n) <==> m == n
  {
    if width > 0 {
      PlacesOrder(width - 1, m / 10, n / 10);
      var a, b := Places(width - 1, m / 10), Places(width - 1, n / 10);
      LexLeAppend(a, b, Digit(m % 10), Digit(n % 10));
      assert Places(width, m)[..width - 1] == a && Places(width, n)[..width - 1] == b;
    }
  }

  lemma {:induction false} U64Fits()
    ensures U64_MAX < Pow10(20)
  {
    assert Pow10(5) == 100_000;
    assert Pow10(10) == 10_000_000_000;
    assert Pow10(15) == 1_000_000_000_000_000;
  }

  /** For every pair of 64-bit sequences the padded texts sort as the numbers do. */
  lemma {:induction false} PaddedOrder(m: nat, n: nat)
    requires m <= U64_MAX && n <= U64_MAX
    ensures LexLe(Padded(20, m), Padded(20, n)) <==> m <= n
    ensures Padded(20, m) == Padded(20, n) <==> m == n
  {
    U64Fits();
    PaddedIsPlaces(20, m);
    PaddedIsPlaces(20, n);
    PlacesOrder(20, m, n);
  }

  // --- the two-field records "a:b" ----------------------------------------------

  /** `split_once(':')`: at the first colon. */
  function SplitOnce(s: string): Option<(string, string)> {
    if s == "" then None
    else if s[0] == ':' then Some(("", s[1..]))
    else match SplitOnce(s[1..])
         case None => None
         case Some((a, b)) => Some(([s[0]] + a, b))
  }

  /** `rsplit_once(':')`: at the last colon. */
  function RSplitOnce(s: string): Option<(string, string)> {
    if s == "" then None
    else if s[|s| - 1] == ':' then Some((s[..|s| - 1], ""))
    else match RSplitOnce(s[..|s| - 1])
         case None => None
         case Some((a, b)) => Some((a, b + [s[|s| - 1]]))
  }

  lemma {:induction false} SplitAtFirst(a: string, b: string)
    requires ':' !in a
    ensures SplitOnce(a + ":" + b) == Some((a, b))
  {
    var s := a + ":" + b;
    if a == "" {
    } else {
      SplitAtFirst(a[1..], b);
      assert s[1..] == a[1..] + ":" + b;
      assert a == [a[0]] + a[1..];
    }
  }

  lemma {:induction false} SplitAtLast(a: string, b: string)
    requires ':' !in b
    ensures RSplitOnce(a + ":" + b) == Some((a, b))
  {
    var s := a + ":" + b;
    if b == "" {
      assert s[..|s| - 1] == a;
    } else {
      SplitAtLast(a, b[..|b| - 1]);
      assert s[..|s| - 1] == a + ":" + b[..|b| - 1];
      assert b == b[..|b| - 1] + [b[|b| - 1]];
    }
  }

  function HeadText(n: nat, id: string): string { Decimal(n) + ":" + id }

  function MarkText(first: nat, through: nat): string { Decimal(first) + ":" + Decimal(through) }

  function CoverText(root: string, total: nat): string { root + ":" + Decimal(total) }

  /** `head_entry`: sequence, then everything after the first colon. */
  function ReadHead(s: string): Option<(nat, string)> {
    match SplitOnce(s)
    case None => None
    case Some((a, id)) => (match ParseU64(a) case None => None case Some(n) => Some((n, id)))
  }

  /** `authority`: both halves are numbers. */
  function ReadMark(s: string): Option<(nat, nat)> {
    match SplitOnce(s)
    case None => None
    case Some((a, b)) =>
      (match (ParseU64(a), ParseU64(b)) case (Some(f), Some(t)) => Some((f, t)) case _ => None)
  }

  /** `coverage`: the total follows the last colon, so the root may contain colons. */
  function ReadCover(s: string): Option<(string, nat)> {
    match RSplitOnce(s)
    case None => None
    case Some((root, t)) => (match ParseU64(t) case None => None case Some(n) => Some((root, n)))
  }

  lemma {:induction false} NoColonInDecimal(n: nat)
    ensures ':' !in Decimal(n)
  {
    DecimalDigits(n);
  }

  /** Each record reads back as it was written, whatever the ids contain. */
  lemma {:induction false} RecordsRoundTrip(n: nat, m: nat, id: string)
    requires n <= U64_MAX && m <= U64_MAX
    ensures ReadHead(HeadText(n, id)) == Some((n, id))
    ensures ReadMark(MarkText(n, m)) == Some((n, m))
    ensures ReadCover(CoverText(id, n)) == Some((id, n))
  {
    NoColonInDecimal(n);
    ParseDecimal(n);
    ParseDecimal(m);
    SplitAtFirst(Decimal(n), id);
    SplitAtFirst(Decimal(n), Decimal(m));
    SplitAtLast(id, Decimal(n));
  }

  // --- keys -------------------------------------------------------------------

  predicate HasPrefix(s: string, p: string) { |p| <= |s| && s[..|p|] == p }

  function Root(x: string): string { "chain/" + x + "/" }

  function Key(x: string, tail: string): string { Root(x) + tail }

  function EvKey(x: string, id: string): string { Key(x, "ev/" + id) }

  function SeqKey(x: string, n: nat): string { Key(x, "seq/" + Padded(20, n)) }

  function SeqPrefix(x: string): string { Key(x, "seq/") }

  function HeadKey(x: string): string { Key(x, "head") }

  function MarkKey(x: string): string { Key(x, "wm") }

  function CoverKey(x: string): string { Key(x, "cov") }

  predicate NoSlash(x: string) { '/' !in x }

  lemma {:induction false} KeyTail(x: string, a: string, b: string)
    ensures Key(x, a) == Key(x, b) <==> a == b
    ensures a != "" ==> |Key(x, a)| > |Root(x)| && Key(x, a)[|Root(x)|] == a[0]
    ensures HasPrefix(Key(x, a), Root(x))
  {
    assert Key(x, a)[|Root(x)|..] == a && Key(x, b)[|Root(x)|..] == b;
  }

  /** Which of the five families a key of `x` belongs to shows in one character. */
  lemma {:induction false} FamiliesDisjoint(x: string, id: string, n: nat)
    ensures EvKey(x, id)[|Root(x)|] == 'e' && SeqKey(x, n)[|Root(x)|] == 's'
    ensures HeadKey(x)[|Root(x)|] == 'h' && MarkKey(x)[|Root(x)|] == 'w' && CoverKey(x)[|Root(x)|] == 'c'
    ensures EvKey(x, id) !in {SeqKey(x, n), HeadKey(x), MarkKey(x), CoverKey(x)}
    ensures SeqKey(x, n) !in {HeadKey(x), MarkKey(x), CoverKey(x)}
    ensures HeadKey(x) != MarkKey(x) && HeadKey(x) != CoverKey(x) && MarkKey(x) != CoverKey(x)
  { }

  lemma {:induction false} EvKeyInjective(x: string, a: string, b: string)
    ensures EvKey(x, a) == EvKey(x, b) <==> a == b
  {
    KeyTail(x, "ev/" + a, "ev/" + b);
    assert ("ev/" + a)[3..] == a && ("ev/" + b)[3..] == b;
  }

  lemma {:induction false} SeqKeyOrder(x: string, m: nat, n: nat)
    requires m <= U64_MAX && n <= U64_MAX
    ensures SeqKey(x, m) == SeqKey(x, n) <==> m == n
    ensures LexLe(SeqKey(x, m), SeqKey(x, n)) <==> m <= n
    ensures HasPrefix(SeqKey(x, n), SeqPrefix(x))
  {
    var a, b := Padded(20, m), Padded(20, n);
    PaddedOrder(m, n);
    KeyTail(x, "seq/" + a, "seq/" + b);
    assert ("seq/" + a)[4..] == a && ("seq/" + b)[4..] == b;
    assert SeqKey(x, m) == SeqPrefix(x) + a && SeqKey(x, n) == SeqPrefix(x) + b;
    LexLePrefixed(SeqPrefix(x), a, b);
  }

  lemma {:induction false} LexLePrefixed(p: string, a: string, b: string)
    ensures LexLe(p + a, p + b) <==> LexLe(a, b)
  {
    if p == "" {
      assert p + a == a && p + b == b;
    } else {
      assert (p + a)[1..] == p[1..] + a && (p + b)[1..] == p[1..] + b;
      LexLePrefixed(p[1..], a, b);
    }
  }

  /** Executions whose ids contain no slash never share a key. */
  lemma {:induction false} ExecutionsDisjoint(x: string, y: string, a: string, b: string)
    requires NoSlash(x) && NoSlash(y) && x != y
    ensures Key(x, a) != Key(y, b)
  {
    var k, l := Key(x, a), Key(y, b);
    if |x| == |y| {
      assert k[6..6 + |x|] == x && l[6..6 + |y|] == y;
    } else if |x| < |y| {
      assert k[6 + |x|] == '/' && l[6 + |x|] == y[|x|];
    } else {
      assert l[6 + |y|] == '/' && k[6 + |y|] == x[|y|];
    }
  }

  /** With a slash they can: an event key of one execution is the watermark of another. */
  lemma {:induction false} SlashCollides()
    ensures EvKey("a", "b/wm") == MarkKey("a/ev/b")
  { }

  /** What one execution stores, by family. */
  datatype Place = Event(id: string) | Pointer(n: nat) | Head | Mark | Cover

  function Tail(f: Place): string {
    match f
    case Event(id) => "ev/" + id
    case Pointer(n) => "seq/" + Padded(20, n)
    case Head => "head"
    case Mark => "wm"
    case Cover => "cov"
  }

  ghost predicate ShareAKey(x: string, y: string) { exists f, g :: Key(x, Tail(f)) == Key(y, Tail(g)) }

  /** `y` reads as an event of `x` with more behind it. */
  predicate InsideEventsOf(y: string, x: string) { HasPrefix(y + "/", x + "/ev/") }

  lemma {:induction false} PaddedDigits(n: nat)
    ensures forall i | 0 <= i < |Padded(20, n)| :: IsDigit(Padded(20, n)[i])
    ensures Padded(20, n) != ""
  {
    DecimalDigits(n);
  }

  /** Only a pointer's tail has a slash that no event stands before, and what follows that
      slash is digits. */
  lemma {:induction false} TailSplits(f: Place, before: string, g: Place)
    requires Tail(f) == before + "/" + Tail(g)
    ensures HasPrefix(before + "/", "ev/")
  {
    var t, k := Tail(f), |before|;
    assert t[k] == '/' && t[k + 1] == Tail(g)[0] && !IsDigit(Tail(g)[0]);
    if f.Pointer? {
      PaddedDigits(f.n);
      assert false;
    }
    assert (before + "/")[..3] == t[..3];
  }

  /** A key of `x` is one of the longer `y` only if `y` lies inside `x`'s events. */
  lemma {:induction false} LongerShares(x: string, y: string, f: Place, g: Place)
    requires |x| < |y| && Key(x, Tail(f)) == Key(y, Tail(g))
    ensures InsideEventsOf(y, x)
  {
    var before := NameExtends(x, y, Tail(f), Tail(g));
    TailSplits(f, before, g);
    assert y + "/" == x + "/" + (before + "/");
    assert (y + "/")[..|x| + 4] == x + "/" + (before + "/")[..3];
  }

  /** Two equal keys of differently long names: the shorter name and a slash start the longer. */
  lemma {:induction false} NameExtends(x: string, y: string, a: string, b: string) returns (before: string)
    requires |x| < |y| && Key(x, a) == Key(y, b)
    ensures y == x + "/" + before && a == before + "/" + b
  {
    before := y[|x| + 1..];
    NameHead(x, a);
    NameHead(y, b);
    assert (x + "/" + a)[..|x| + 1] == x + "/" && (y + "/" + b)[..|x| + 1] == y[..|x| + 1];
    assert (x + "/" + a)[|x| + 1..] == a && (y + "/" + b)[|x| + 1..] == before + "/" + b;
  }

  lemma {:induction false} NameHead(x: string, a: string)
    ensures Key(x, a)[6..] == x + "/" + a
  { }

  lemma {:induction false} InsideShares(x: string, y: string)
    requires InsideEventsOf(y, x)
    ensures ShareAKey(x, y)
  {
    var more := (y + "/")[|x| + 4..];
    assert y + "/" == x + "/ev/" + more;
    calc {
      Key(x, Tail(Event(more + "wm")));
      "chain/" + (x + "/ev/" + more) + "wm";
      Key(y, Tail(Mark));
    }
  }

  lemma {:induction false} NameInKey(x: string, tail: string)
    ensures Key(x, tail)[6..6 + |x|] == x
  { }

  /** Two executions share a key exactly when one's id lies inside the events of the other. */
  lemma {:induction false} ShareAKeyIff(x: string, y: string)
    requires x != y
    ensures ShareAKey(x, y) <==> InsideEventsOf(y, x) || InsideEventsOf(x, y)
  {
    if f, g :| Key(x, Tail(f)) == Key(y, Tail(g)) {
      if |x| == |y| {
        NameInKey(x, Tail(f));
        NameInKey(y, Tail(g));
      } else if |x| < |y| {
        LongerShares(x, y, f, g);
      } else {
        LongerShares(y, x, g, f);
      }
    }
    if InsideEventsOf(y, x) { InsideShares(x, y); }
    if InsideEventsOf(x, y) {
      InsideShares(y, x);
      var f, g :| Key(y, Tail(f)) == Key(x, Tail(g));
      assert Key(x, Tail(g)) == Key(y, Tail(f));
    }
  }
}
