/**
 * What carries the Friday scan over to Monday in the e-mail automation: the
 * watchlist file name with its date stamp, the choice of the latest one, and
 * the trading capital read from the configuration.
 */
module Handoff {
  import opened Bars

  /** Python's `a <= b` on str: character by character, a proper prefix first. */
  predicate StrLe(a: string, b: string)
  {
    a == [] || (b != [] && (a[0] < b[0] || (a[0] == b[0] && StrLe(a[1..], b[1..]))))
  }

  /** The usual lexicographic order: `a` is a prefix of `b`, or smaller where they first differ. */
  ghost predicate Lex(a: string, b: string)
  {
    IsPrefix(a, b) || exists k :: DiffersAt(a, b, k)
  }

  ghost predicate IsPrefix(a: string, b: string)
  {
    |a| <= |b| && a == b[..|a|]
  }

  /** `a` and `b` agree before position `k` and `a` is smaller at `k`. */
  ghost predicate DiffersAt(a: string, b: string, k: int)
  {
    0 <= k < |a| && k < |b| && a[..k] == b[..k] && a[k] < b[k]
  }

  /** StrLe is exactly the lexicographic order. */
  lemma {:induction false} StrLeIsLex(a: string, b: string)
    ensures StrLe(a, b) <==> Lex(a, b)
  {
    if a != [] && b != [] {
      StrLeIsLex(a[1..], b[1..]);
      LexStep(a, b);
    }
  }

  /** Lex unfolded by one character. */
  lemma LexStep(a: string, b: string)
    requires a != [] && b != []
    ensures Lex(a, b) <==> a[0] < b[0] || (a[0] == b[0] && Lex(a[1..], b[1..]))
  {
    PrefixStep(a, b);
    if a[0] < b[0] {
      assert DiffersAt(a, b, 0);
    }
    if exists k :: DiffersAt(a, b, k) {
      var k :| DiffersAt(a, b, k);
      if k != 0 {
        DiffersStep(a, b, k);
      }
    }
    if a[0] == b[0] && exists k :: DiffersAt(a[1..], b[1..], k) {
      var k :| DiffersAt(a[1..], b[1..], k);
      DiffersStep(a, b, k + 1);
    }
  }

  lemma PrefixStep(a: string, b: string)
    requires a != [] && b != []
    ensures IsPrefix(a, b) <==> a[0] == b[0] && IsPrefix(a[1..], b[1..])
  {
    if |a| <= |b| {
      assert b[..|a|] == [b[0]] + b[1..][..|a| - 1];
      assert a == [a[0]] + a[1..];
    }
  }

  lemma DiffersStep(a: string, b: string, k: int)
    requires a != [] && b != [] && 0 < k
    ensures DiffersAt(a, b, k) <==> a[0] == b[0] && DiffersAt(a[1..], b[1..], k - 1)
  {
    if k < |a| && k < |b| {
      assert a[..k] == [a[0]] + a[1..][..k - 1];
      assert b[..k] == [b[0]] + b[1..][..k - 1];
      assert a[1..][..k - 1] == a[..k][1..] && b[1..][..k - 1] == b[..k][1..];
      assert a[..k][0] == a[0] && b[..k][0] == b[0];
    }
  }

  lemma {:induction false} StrLeTotal(a: string, b: string)
    ensures StrLe(a, b) || StrLe(b, a)
  {
    if a != [] && b != [] && a[0] == b[0] {
      StrLeTotal(a[1..], b[1..]);
    }
  }

  lemma {:induction false} StrLeReflexive(a: string)
    ensures StrLe(a, a)
  {
    if a != [] {
      StrLeReflexive(a[1..]);
    }
  }

  lemma {:induction false} StrLeTransitive(a: string, b: string, c: string)
    requires StrLe(a, b) && StrLe(b, c)
    ensures StrLe(a, c)
  {
    if a != [] && a[0] == b[0] && b[0] == c[0] {
      StrLeTransitive(a[1..], b[1..], c[1..]);
    }
  }

  lemma {:induction false} StrLeAntisymmetric(a: string, b: string)
    requires StrLe(a, b) && StrLe(b, a)
    ensures a == b
  {
    if a != [] {
      StrLeAntisymmetric(a[1..], b[1..]);
      assert a == [a[0]] + a[1..] && b == [b[0]] + b[1..];
    }
  }

  /** `max(files)`: the greatest name in Python's string order. */
  function MaxName(files: seq<string>): (r: string)
    requires files != []
    ensures r in files
    ensures forall f :: f in files ==> StrLe(f, r)
  {
    if |files| == 1 then
      StrLeReflexive(files[0]);
      files[0]
    else
      var m := MaxName(files[1..]);
      StrLeTotal(files[0], m);
      if StrLe(files[0], m) then m
      else
        MaxStep(files[0], files[1..], m);
        StrLeReflexive(files[0]);
        assert files == [files[0]] + files[1..];
        files[0]
  }

  lemma MaxStep(x: string, rest: seq<string>, m: string)
    requires StrLe(m, x)
    requires forall f :: f in rest ==> StrLe(f, m)
    ensures forall f :: f in rest ==> StrLe(f, x)
  {
    forall f | f in rest
      ensures StrLe(f, x)
    {
      StrLeTransitive(f, m, x);
    }
  }

  /** The watchlist to load on Monday: None when there is no watchlist file at all. */
  function LatestWatchlist(files: seq<string>): (r: Option<string>)
    ensures r.None? <==> files == []
    ensures r.Some? ==> r.value in files && forall f :: f in files ==> StrLe(f, r.value)
  {
    if files == [] then None else Some(MaxName(files))
  }

  const WATCHLIST_PREFIX: string := "friday_watchlist_"
  const WATCHLIST_SUFFIX: string := ".csv"

  /** A `%Y%m%d` stamp: eight decimal digits. */
  predicate IsDateStamp(s: string)
  {
    |s| == 8 && AllDigits(s)
  }

  function WatchlistFileName(stamp: string): string
  {
    WATCHLIST_PREFIX + stamp + WATCHLIST_SUFFIX
  }

  function Digit(c: char): nat
    requires '0' <= c <= '9'
  {
    (c as int) - ('0' as int)
  }

  function Pow10(n: nat): (r: nat)
    ensures 0 < r
  {
    if n == 0 then 1 else 10 * Pow10(n - 1)
  }

  predicate AllDigits(s: string)
  {
    forall k :: 0 <= k < |s| ==> '0' <= s[k] <= '9'
  }

  /** The number a string of decimal digits spells, most significant digit first. */
  function DigitsValue(s: string): (r: nat)
    requires AllDigits(s)
    ensures r < Pow10(|s|)
  {
    if s == [] then 0
    else
      var rest := DigitsValue(s[1..]);
      DigitBound(Digit(s[0]), rest, Pow10(|s| - 1));
      Digit(s[0]) * Pow10(|s| - 1) + rest
  }

  lemma DigitBound(d: nat, rest: nat, p: nat)
    requires d <= 9 && rest < p
    ensures d * p + rest < 10 * p
  {
  }

  /** A smaller leading digit outweighs whatever digits follow it. */
  lemma LeadingDigitDecides(da: nat, db: nat, ra: nat, rb: nat, p: nat)
    requires da < db && ra < p
    ensures da * p + ra < db * p + rb
  {
    assert (da + 1) * p <= db * p;
  }

  /**
   * For digit strings of the same length, Python's string order is the
   * order of the numbers they spell.
   */
  lemma {:induction false} DigitOrderIsNumericOrder(a: string, b: string)
    requires AllDigits(a) && AllDigits(b) && |a| == |b|
    ensures StrLe(a, b) <==> DigitsValue(a) <= DigitsValue(b)
  {
    if a != [] {
      var p := Pow10(|a| - 1);
      var ra, rb := DigitsValue(a[1..]), DigitsValue(b[1..]);
      if a[0] < b[0] {
        LeadingDigitDecides(Digit(a[0]), Digit(b[0]), ra, rb, p);
      } else if b[0] < a[0] {
        LeadingDigitDecides(Digit(b[0]), Digit(a[0]), rb, ra, p);
      } else {
        DigitOrderIsNumericOrder(a[1..], b[1..]);
      }
    }
  }

  /** A shared prefix does not change the order of two strings. */
  lemma {:induction false} CommonPrefix(p: string, a: string, b: string)
    ensures StrLe(p + a, p + b) <==> StrLe(a, b)
  {
    if p == [] {
      assert p + a == a && p + b == b;
    } else {
      assert (p + a)[1..] == p[1..] + a;
      assert (p + b)[1..] == p[1..] + b;
      CommonPrefix(p[1..], a, b);
    }
  }

  /** Two strings of equal length that differ keep their order under a shared suffix. */
  lemma {:induction false} CommonSuffix(a: string, b: string, t: string)
    requires |a| == |b|
    ensures StrLe(a + t, b + t) <==> StrLe(a, b)
  {
    if a == [] {
      assert a + t == t && b + t == t;
      StrLeReflexive(t);
    } else {
      assert (a + t)[1..] == a[1..] + t;
      assert (b + t)[1..] == b[1..] + t;
      CommonSuffix(a[1..], b[1..], t);
    }
  }

  /** Comparing two watchlist file names compares their dates. */
  lemma FileNameOrderIsDateOrder(a: string, b: string)
    requires IsDateStamp(a) && IsDateStamp(b)
    ensures StrLe(WatchlistFileName(a), WatchlistFileName(b)) <==> DigitsValue(a) <= DigitsValue(b)
  {
    CommonPrefix(WATCHLIST_PREFIX, a + WATCHLIST_SUFFIX, b + WATCHLIST_SUFFIX);
    assert WatchlistFileName(a) == WATCHLIST_PREFIX + (a + WATCHLIST_SUFFIX);
    assert WatchlistFileName(b) == WATCHLIST_PREFIX + (b + WATCHLIST_SUFFIX);
    CommonSuffix(a, b, WATCHLIST_SUFFIX);
    DigitOrderIsNumericOrder(a, b);
  }

  /**
   * When every file is a dated watchlist, the one picked on Monday carries
   * the greatest date stamp.
   */
  lemma LatestIsNewest(stamps: seq<string>)
    requires stamps != []
    requires forall k :: 0 <= k < |stamps| ==> |stamps[k]| == 8 && AllDigits(stamps[k])
    ensures var files := seq(|stamps|, k requires 0 <= k < |stamps| => WatchlistFileName(stamps[k]));
      exists k :: 0 <= k < |stamps| && LatestWatchlist(files) == Some(WatchlistFileName(stamps[k]))
        && forall j :: 0 <= j < |stamps| ==> DigitsValue(stamps[j]) <= DigitsValue(stamps[k])
  {
    var files := seq(|stamps|, k requires 0 <= k < |stamps| => WatchlistFileName(stamps[k]));
    var latest := LatestWatchlist(files).value;
    var k :| 0 <= k < |files| && files[k] == latest;
    forall j | 0 <= j < |stamps|
      ensures DigitsValue(stamps[j]) <= DigitsValue(stamps[k])
    {
      assert files[j] in files;
      FileNameOrderIsDateOrder(stamps[j], stamps[k]);
    }
  }

  /** The `trading` section of the configuration. */
  datatype TradingSection = TradingSection(capital: Option<real>)

  /** The part of `config.json` the Monday run reads. */
  datatype Config = Config(trading: Option<TradingSection>)

  const DEFAULT_CAPITAL: real := 100000.0

  /** The configuration written when none exists. */
  const SAMPLE_CONFIG: Config := Config(Some(TradingSection(Some(DEFAULT_CAPITAL))))

  /** `trading.capital`, or 100000 when the section or the key is missing. */
  function ConfiguredCapital(config: Config): (r: real)
    ensures config.trading.Some? && config.trading.value.capital.Some? ==> r == config.trading.value.capital.value
    ensures config.trading.None? || config.trading.value.capital.None? ==> r == DEFAULT_CAPITAL
  {
    match config.trading
      case None => DEFAULT_CAPITAL
      case Some(section) => if section.capital.Some? then section.capital.value else DEFAULT_CAPITAL
  }

  /** A missing configuration and a configuration without a capital give the same capital. */
  lemma SampleConfigCapital(config: Config)
    requires config.trading.None? || config.trading.value.capital.None?
    ensures ConfiguredCapital(config) == ConfiguredCapital(SAMPLE_CONFIG) == 100000.0
  {
  }
}
