/**
 * Query-string normalisation shared by every listing handler: `parseInt(x, 10)`,
 * the `page`/`limit` defaults and floors, and the `sortType` to sort-order rule.
 * Query values are absent (`None`) or strings.
 */
module Paging {
  import opened Wrappers
  import opened Text

  predicate IsDigit(c: char) {
    '0' <= c <= '9'
  }

  predicate AllDigits(s: string) {
    forall k :: 0 <= k < |s| ==> IsDigit(s[k])
  }

  function DigitValue(c: char): nat
    requires IsDigit(c)
  {
    c as int - '0' as int
  }

  function DigitChar(d: nat): (c: char)
    requires d < 10
    ensures IsDigit(c) && DigitValue(c) == d
  {
    ('0' as int + d) as char
  }

  /** The value of a run of decimal digits, most significant first. */
  function DigitsValue(ds: string): nat
    requires AllDigits(ds)
  {
    if ds == [] then 0 else DigitsValue(ds[..|ds| - 1]) * 10 + DigitValue(ds[|ds| - 1])
  }

  /** The longest prefix of `s` made of decimal digits. */
  function LeadingDigits(s: string): (r: string)
    ensures |r| <= |s| && r == s[..|r|] && AllDigits(r)
    ensures |r| < |s| ==> !IsDigit(s[|r|])
  {
    if |s| > 0 && IsDigit(s[0]) then [s[0]] + LeadingDigits(s[1..]) else []
  }

  /**
   * `parseInt(s, 10)`: leading white space is skipped, one optional sign is
   * read, then the longest run of decimal digits; anything after it is
   * ignored. `None` is NaN (no digit at all).
   */
  function ParseInt(s: string): Option<int> {
    ParseSigned(TrimStart(s))
  }

  /** `parseInt` once the leading white space is gone. */
  function ParseSigned(t: string): Option<int> {
    var negative := |t| > 0 && t[0] == '-';
    var unsigned := if |t| > 0 && (t[0] == '-' || t[0] == '+') then t[1..] else t;
    var ds := LeadingDigits(unsigned);
    if ds == [] then None
    else
      var v: int := DigitsValue(ds);
      Some(if negative then -v else v)
  }

  /** The canonical decimal rendering of a natural number. */
  function Decimal(n: nat): (r: string)
    ensures |r| >= 1 && AllDigits(r)
    ensures DigitsValue(r) == n
  {
    if n < 10 then [DigitChar(n)]
    else
      var r := Decimal(n / 10) + [DigitChar(n % 10)];
      assert r[..|r| - 1] == Decimal(n / 10);
      r
  }

  lemma {:induction false} LeadingDigitsOfDigits(ds: string, rest: string)
    requires AllDigits(ds)
    requires rest == [] || !IsDigit(rest[0])
    ensures LeadingDigits(ds + rest) == ds
    decreases |ds|
  {
    if ds != [] {
      assert (ds + rest)[1..] == ds[1..] + rest;
      LeadingDigitsOfDigits(ds[1..], rest);
    }
  }

  /**
   * `parseInt` reads back a run of decimal digits, after any leading white
   * space, with an optional sign, and ignoring whatever follows the digits.
   */
  lemma ParseIntDigits(ws: string, d: string, rest: string)
    requires AllSpace(ws) && d != [] && AllDigits(d)
    requires rest == [] || !IsDigit(rest[0])
    ensures ParseInt(ws + d + rest) == Some(DigitsValue(d))
    ensures ParseInt(ws + "-" + d + rest) == Some(-(DigitsValue(d) as int))
    ensures ParseInt(ws + "+" + d + rest) == Some(DigitsValue(d))
  {
    LeadingDigitsOfDigits(d, rest);
    ParseDigits(d, rest);
    ParseSkipsSpace(ws, d + rest);
    assert ws + d + rest == ws + (d + rest);
    ParseSignedDigits(ws, '-', d, rest);
    ParseSignedDigits(ws, '+', d, rest);
  }

  /** `parseInt` inverts the decimal rendering. */
  lemma DecimalParses(n: nat)
    ensures ParseInt(Decimal(n)) == Some(n)
  {
    PlainDigitsParse(Decimal(n));
  }

  /** A bare run of digits parses to its value. */
  lemma PlainDigitsParse(d: string)
    requires d != [] && AllDigits(d)
    ensures ParseInt(d) == Some(DigitsValue(d))
  {
    assert d + [] == d && [] + d == d;
    LeadingDigitsOfDigits(d, []);
    TrimStartSkipsSpace([], d);
    ParseDigits(d, []);
  }

  lemma ParseDigits(d: string, rest: string)
    requires d != [] && AllDigits(d)
    requires LeadingDigits(d + rest) == d
    ensures ParseSigned(d + rest) == Some(DigitsValue(d))
  {
  }

  /** A sign in front of the digits: `-` negates, `+` is ignored. */
  lemma ParseSignedSign(sign: char, d: string, rest: string)
    requires sign == '-' || sign == '+'
    requires d != [] && AllDigits(d)
    requires LeadingDigits(d + rest) == d
    ensures ParseSigned([sign] + (d + rest)) == Some(if sign == '-' then -(DigitsValue(d) as int) else DigitsValue(d))
  {
    var t := [sign] + (d + rest);
    assert t[0] == sign && t[1..] == d + rest;
  }

  lemma ParseSignedDigits(ws: string, sign: char, d: string, rest: string)
    requires AllSpace(ws) && (sign == '-' || sign == '+')
    requires d != [] && AllDigits(d)
    requires LeadingDigits(d + rest) == d
    ensures ParseInt(ws + [sign] + d + rest) == Some(if sign == '-' then -(DigitsValue(d) as int) else DigitsValue(d))
  {
    var t := [sign] + (d + rest);
    assert t[0] == sign;
    ParseSignedSign(sign, d, rest);
    ParseSkipsSpace(ws, t);
    Regroup(ws, [sign], d, rest);
  }

  lemma Regroup(a: string, b: string, c: string, e: string)
    ensures a + b + c + e == a + (b + (c + e))
  {
  }

  lemma ParseSkipsSpace(ws: string, t: string)
    requires AllSpace(ws) && t != [] && (t[0] == '-' || t[0] == '+' || IsDigit(t[0]))
    ensures ParseInt(ws + t) == ParseSigned(t)
  {
    assert !IsSpace(t[0]);
    TrimStartSkipsSpace(ws, t);
  }

  lemma {:induction false} TrimStartSkipsSpace(ws: string, s: string)
    requires AllSpace(ws)
    requires s == [] || !IsSpace(s[0])
    ensures TrimStart(ws + s) == s
    decreases |ws|
  {
    if ws == [] {
      assert ws + s == s;
    } else {
      assert (ws + s)[1..] == ws[1..] + s;
      TrimStartSkipsSpace(ws[1..], s);
    }
  }

  function Max(a: int, b: int): int {
    if a >= b then a else b
  }

  /** `parseInt(x, 10) || d`: NaN and 0 are both falsy and give the default. */
  function OrDefault(parsed: Option<int>, d: int): int {
    match parsed
    case Some(n) => if n == 0 then d else n
    case None => d
  }

  /** `Math.max(1, parseInt(page, 10) || 1)` with the destructuring default `page = 1`. */
  function PageNumber(raw: Option<string>): (p: int)
    ensures p >= 1
    ensures raw.Some? && ParseInt(raw.value).Some? && ParseInt(raw.value).value >= 1
            ==> p == ParseInt(raw.value).value
    ensures raw.None? || ParseInt(raw.value).None? || ParseInt(raw.value).value < 1 ==> p == 1
  {
    Max(1, if raw.None? then 1 else OrDefault(ParseInt(raw.value), 1))
  }

  /**
   * `Math.max(1, parseInt(limit, 10) || 10)` with the default `limit = 10`:
   * a limit of 0 falls back to 10, while a negative limit is floored to 1.
   */
  function LimitNumber(raw: Option<string>): (l: int)
    ensures l >= 1
    ensures raw.Some? && ParseInt(raw.value).Some? && ParseInt(raw.value).value >= 1
            ==> l == ParseInt(raw.value).value
    ensures raw.None? || ParseInt(raw.value).None? || ParseInt(raw.value) == Some(0) ==> l == 10
    ensures raw.Some? && ParseInt(raw.value).Some? && ParseInt(raw.value).value < 0 ==> l == 1
  {
    Max(1, if raw.None? then 10 else OrDefault(ParseInt(raw.value), 10))
  }

  /** `parseInt(sortType, 10) === 1 ? 1 : -1`; an absent `sortType` parses to NaN. */
  function SortOrder(raw: Option<string>): (o: int)
    ensures o == 1 || o == -1
    ensures o == 1 <==> raw.Some? && ParseInt(raw.value) == Some(1)
  {
    if raw.Some? && ParseInt(raw.value) == Some(1) then 1 else -1
  }

  /** `sortBy || "createdAt"`: an absent or empty field name gives the creation time. */
  function SortField(raw: Option<string>): (f: string)
    ensures f != []
    ensures raw.Some? && raw.value != [] ==> f == raw.value
    ensures raw.None? || raw.value == [] ==> f == "createdAt"
  {
    if raw.Some? && raw.value != [] then raw.value else "createdAt"
  }

  /** The normalised options handed to the paginating aggregate. */
  datatype PageQuery = PageQuery(page: int, limit: int, sortField: string, sortOrder: int)

  predicate WellFormed(q: PageQuery) {
    q.page >= 1 && q.limit >= 1 && (q.sortOrder == 1 || q.sortOrder == -1) && q.sortField != []
  }

  function Normalize(page: Option<string>, limit: Option<string>, sortBy: Option<string>, sortType: Option<string>): (q: PageQuery)
    ensures WellFormed(q)
  {
    PageQuery(PageNumber(page), LimitNumber(limit), SortField(sortBy), SortOrder(sortType))
  }

  /** A page number written in decimal comes back unchanged. */
  lemma PageNumberDecimal(n: nat)
    requires n >= 1
    ensures PageNumber(Some(Decimal(n))) == n
  {
    DecimalParses(n);
  }

  /** A limit written in decimal comes back unchanged. */
  lemma LimitNumberDecimal(n: nat)
    requires n >= 1
    ensures LimitNumber(Some(Decimal(n))) == n
  {
    DecimalParses(n);
  }

  /**
   * A decimal `sortType` sorts ascending exactly when it is 1, and any
   * negative one sorts descending.
   */
  lemma SortOrderDecimal(n: nat)
    ensures SortOrder(Some(Decimal(n))) == 1 <==> n == 1
    ensures SortOrder(Some("-" + Decimal(n))) == -1
  {
    var d := Decimal(n);
    DecimalParses(n);
    NegativeParses(d, "-" + d);
  }

  lemma NegativeParses(d: string, t: string)
    requires d != [] && AllDigits(d)
    requires t == "-" + d
    ensures ParseInt(t) == Some(-(DigitsValue(d) as int))
  {
    assert t[0] == '-' && t[1..] == d;
    LeadingDigitsOfDigits(d, []);
    assert d + [] == d;
    assert !IsSpace(t[0]);
    assert TrimStart(t) == t;
  }

  /** A page, limit and sort order written in decimal come back unchanged. */
  lemma NormalizeRoundTrip(page: nat, limit: nat, sortBy: string, ascending: bool)
    requires page >= 1 && limit >= 1 && sortBy != []
    ensures Normalize(Some(Decimal(page)), Some(Decimal(limit)), Some(sortBy),
                      Some(if ascending then Decimal(1) else "-" + Decimal(1)))
            == PageQuery(page, limit, sortBy, if ascending then 1 else -1)
  {
    PageNumberDecimal(page);
    LimitNumberDecimal(limit);
    SortOrderDecimal(1);
  }
}
