/** The rule each database backend uses to derive the integer shadow value of
    a target_id string, as written in the trigger bodies:
    - MySQL:      IF(NEW.c REGEXP '^[0-9]+$', CAST(NEW.c AS UNSIGNED), NULL)
    - PostgreSQL: (CASE WHEN NEW.c ~ '^[0-9]+$' THEN NEW.c ELSE NULL END)::integer
    - SQLite:     CAST(c AS INTEGER), with no digit check;
    and the range of the shadow column the value is written to: an unsigned
    'int' is MySQL's INT UNSIGNED, a CHECKed INTEGER on PostgreSQL (where the
    ::integer cast itself stops at 2^31 - 1) and a 64-bit INTEGER on SQLite. */
module ShadowValue {
  import opened Wrappers
  import opened Strings

  predicate IsDigit(c: char) { '0' <= c <= '9' }

  /** The string matches '^[0-9]+$'. */
  predicate MatchesDigits(s: string)
  {
    |s| > 0 && forall k :: 0 <= k < |s| ==> IsDigit(s[k])
  }

  predicate AllDigits(s: string)
  {
    forall k :: 0 <= k < |s| ==> IsDigit(s[k])
  }

  function DigitValue(c: char): (d: nat)
    requires IsDigit(c)
    ensures d < 10
  {
    c as int - '0' as int
  }

  /** The unsigned value of a string of decimal digits ("" has value 0). */
  function DigitsValue(s: string): nat
    requires AllDigits(s)
  {
    if s == [] then 0 else 10 * DigitsValue(s[..|s| - 1]) + DigitValue(s[|s| - 1])
  }

  /** The digit string with its redundant leading zeros removed ("007" is
      "7", "000" is "0"). */
  function StripLeadingZeros(s: string): (r: string)
    ensures |r| <= |s|
    ensures |s| > 0 ==> |r| > 0
  {
    if |s| > 1 && s[0] == '0' then StripLeadingZeros(s[1..]) else s
  }

  /** The shadow rule of the MySQL and PostgreSQL triggers: the value of a
      non-empty string of ASCII digits, NULL (None) for anything else. */
  function RegexShadow(s: string): (r: Option<nat>)
    ensures r.None? <==> (s == [] || exists k :: 0 <= k < |s| && !IsDigit(s[k]))
  {
    if MatchesDigits(s) then Some(DigitsValue(s)) else None
  }

  /** The digits a numeric cast reads: the longest all-digit prefix. */
  function LeadingDigits(s: string): (r: string)
    ensures |r| <= |s| && r == s[..|r|]
    ensures AllDigits(r)
    ensures |r| < |s| ==> !IsDigit(s[|r|])
    ensures AllDigits(s) ==> r == s
  {
    if s == [] || !IsDigit(s[0]) then [] else [s[0]] + LeadingDigits(s[1..])
  }

  /** The shadow rule of the SQLite trigger: CAST(c AS INTEGER) reads the
      leading digits, and a string with none of them becomes 0. */
  function CastShadow(s: string): (n: nat)
    ensures MatchesDigits(s) ==> RegexShadow(s) == Some(n)
    ensures (s == [] || !IsDigit(s[0])) ==> n == 0
  {
    DigitsValue(LeadingDigits(s))
  }

  lemma DigitCharValue(d: nat)
    requires d < 10
    ensures IsDigit(DigitChar(d)) && DigitValue(DigitChar(d)) == d
  {
  }

  /** Reading back the decimal string of n gives n. */
  lemma {:induction false} DigitsValueOfNatToString(n: nat)
    ensures AllDigits(NatToString(n))
    ensures DigitsValue(NatToString(n)) == n
  {
    var s := NatToString(n);
    if n < 10 {
      DigitCharValue(n);
      assert s[..|s| - 1] == [];
    } else {
      DigitsValueOfNatToString(n / 10);
      DigitCharValue(n % 10);
      assert s[..|s| - 1] == NatToString(n / 10);
    }
  }


  /** A leading zero does not change the value. */
  lemma {:induction false} DigitsValueLeadingZero(s: string)
    requires AllDigits(s)
    ensures AllDigits("0" + s) && DigitsValue("0" + s) == DigitsValue(s)
  {
    var z := "0" + s;
    if s != [] {
      assert z[..|z| - 1] == "0" + s[..|s| - 1];
      DigitsValueLeadingZero(s[..|s| - 1]);
    }
  }

  /** A digit string without redundant leading zeros is the decimal form of
      its value. */
  lemma {:induction false} NatToStringOfCanonical(s: string)
    requires MatchesDigits(s) && (|s| == 1 || s[0] != '0')
    ensures NatToString(DigitsValue(s)) == s
  {
    var v := DigitsValue(s);
    var init := s[..|s| - 1];
    var last := DigitValue(s[|s| - 1]);
    if |s| == 1 {
      assert init == [];
      assert DigitsValue(init) == 0;
      assert v == last;
      assert [DigitChar(v)] == s;
    } else {
      assert init[0] == s[0];
      NatToStringOfCanonical(init);
      assert DigitsValue(init) >= 1 by {
        PositiveLeadingDigit(init);
      }
      assert v >= 10;
      assert v / 10 == DigitsValue(init) && v % 10 == last;
      assert NatToString(v) == NatToString(DigitsValue(init)) + [DigitChar(last)];
      assert s == init + [s[|s| - 1]];
    }
  }

  /** A digit string whose first digit is not zero has a positive value. */
  lemma {:induction false} PositiveLeadingDigit(s: string)
    requires MatchesDigits(s) && s[0] != '0'
    ensures DigitsValue(s) >= 1
  {
    if |s| > 1 {
      var init := s[..|s| - 1];
      assert init[0] == s[0];
      PositiveLeadingDigit(init);
    }
  }

  /** Stripping leading zeros keeps the string numeric and keeps its value. */
  lemma {:induction false} StripLeadingZerosKeepsValue(s: string)
    requires MatchesDigits(s)
    ensures MatchesDigits(StripLeadingZeros(s))
    ensures DigitsValue(StripLeadingZeros(s)) == DigitsValue(s)
    ensures |StripLeadingZeros(s)| == 1 || StripLeadingZeros(s)[0] != '0'
  {
    if |s| > 1 && s[0] == '0' {
      StripLeadingZerosKeepsValue(s[1..]);
      assert s == "0" + s[1..];
      DigitsValueLeadingZero(s[1..]);
    }
  }

  /** What the regex shadow value means: a string has shadow n exactly when,
      once its leading zeros are dropped, it is the decimal string of n. */
  lemma RegexShadowMeaning(s: string, n: nat)
    ensures RegexShadow(s) == Some(n) <==> (MatchesDigits(s) && StripLeadingZeros(s) == NatToString(n))
  {
    if MatchesDigits(s) {
      StripLeadingZerosKeepsValue(s);
      NatToStringOfCanonical(StripLeadingZeros(s));
      if StripLeadingZeros(s) == NatToString(n) {
        DigitsValueOfNatToString(n);
      }
    }
  }

  /** Two target_id strings written without leading zeros share a shadow
      value only when they are the same string: joining on the integer
      column matches the same rows as joining on the string column. */
  lemma CanonicalShadowInjective(s: string, t: string)
    requires MatchesDigits(s) && (|s| == 1 || s[0] != '0')
    requires MatchesDigits(t) && (|t| == 1 || t[0] != '0')
    requires RegexShadow(s) == RegexShadow(t)
    ensures s == t
  {
    NatToStringOfCanonical(s);
    NatToStringOfCanonical(t);
  }

  /** The backends disagree on non-numeric ids: the string id "test" gets
      NULL under MySQL and PostgreSQL and 0 under SQLite. */
  lemma BackendsDisagreeOnStringIds(s: string)
    requires |s| > 0 && !IsDigit(s[0])
    ensures RegexShadow(s) == None && CastShadow(s) == 0
  {
  }

  /** A stored cell: SQL NULL, a string, or an unsigned integer. */
  datatype Cell = Null | Text(s: string) | Num(n: nat)

  /** MySQL's INT UNSIGNED holds up to 2^32 - 1. */
  const UnsignedIntMax := 4294967295
  /** PostgreSQL's INTEGER (and its ::integer cast) holds up to 2^31 - 1. */
  const IntMax := 2147483647
  /** SQLite's INTEGER is a signed 64-bit value. */
  const Int64Max := 9223372036854775807

  /** Which rule a trigger applies: the regex rule writing into a column of
      the given maximum, or SQLite's cast. */
  datatype Rule = RegexRule(max: nat) | CastRule

  /** The largest value the shadow column of a rule holds. */
  function MaxOf(rule: Rule): nat
  {
    if rule.RegexRule? then rule.max else Int64Max
  }

  /** Writing a computed value into the shadow column: an out-of-range value
      is an error under the regex rules (strict MySQL and PostgreSQL reject
      it, failing the whole INSERT or UPDATE), while SQLite's cast saturates
      at its largest integer. */
  function Stored(rule: Rule, n: nat): (r: Option<Cell>)
  {
    if n <= MaxOf(rule) then Some(Num(n))
    else if rule.CastRule? then Some(Num(Int64Max))
    else None
  }

  /** The value a trigger writes into the shadow column for a source cell,
      or None when the write fails. NULL stays NULL under every rule (a NULL
      never matches the regex, a cast of NULL is NULL and the PostgreSQL
      function returns NULL on NULL input); an integer cell is its own
      value. */
  function Shadow(rule: Rule, c: Cell): (r: Option<Cell>)
    ensures r.Some? ==> r.value.Null? || (r.value.Num? && r.value.n <= MaxOf(rule))
    ensures c.Null? ==> r == Some(Null)
    ensures rule.CastRule? ==> r.Some? && (c.Text? ==> r.value.Num?)
    ensures r.None? <==>
      rule.RegexRule? && ((c.Num? && c.n > rule.max) ||
                          (c.Text? && RegexShadow(c.s).Some? && RegexShadow(c.s).value > rule.max))
  {
    match c
    case Null => Some(Null)
    case Num(n) => Stored(rule, n)
    case Text(s) =>
      match rule
      case CastRule => Stored(rule, CastShadow(s))
      case RegexRule(_) => if MatchesDigits(s) then Stored(rule, DigitsValue(s)) else Some(Null)
  }

  /** Round trip: every natural number stored as its decimal target_id reads
      back as itself under both rules, and it becomes its own shadow value
      exactly when the shadow column can hold it; beyond that the regex
      backends refuse the write and SQLite saturates. */
  lemma ShadowRoundTrip(rule: Rule, n: nat)
    ensures RegexShadow(NatToString(n)) == Some(n)
    ensures CastShadow(NatToString(n)) == n
    ensures Shadow(rule, Text(NatToString(n))) ==
      if n <= MaxOf(rule) then Some(Num(n)) else if rule.CastRule? then Some(Num(Int64Max)) else None
  {
    DigitsValueOfNatToString(n);
  }

  /** Ids between 2^31 and 2^32 - 1 fit MySQL's unsigned column but not
      PostgreSQL's signed one: the same write succeeds on one backend and
      fails on the other. */
  lemma BackendsDisagreeOnWideIds(n: nat)
    requires IntMax < n <= UnsignedIntMax
    ensures Shadow(RegexRule(UnsignedIntMax), Text(NatToString(n))) == Some(Num(n))
    ensures Shadow(RegexRule(IntMax), Text(NatToString(n))) == None
  {
    ShadowRoundTrip(RegexRule(UnsignedIntMax), n);
    ShadowRoundTrip(RegexRule(IntMax), n);
  }
}
