/** The pure decisions of the product listing: which repository query answers it, in
    which order, and the popular-products endpoint that degrades to an empty list. The
    queries themselves run in the database and are not part of this model. */
module Catalog {
  import opened Records
  import Card
  import Pagination

  datatype SortOrder = NameAscending | SalesDescending

  /** The `sort` parameter defaults to "name"; only the exact value "popularity" sorts
      by sales, highest first. */
  function SortFor(sort: Option<string>): (o: SortOrder)
    ensures o == SalesDescending <==> sort == Some("popularity")
  {
    if sort.GetOr("name") == "popularity" then SalesDescending else NameAscending
  }

  // ------------------------------------------------ query string to `?int` argument

  /** The string without its leading whitespace. */
  function TrimStart(s: string): (r: string)
    ensures |r| <= |s| && (r != [] ==> !Card.IsSpace(r[0]))
    decreases |s|
  {
    if s != [] && Card.IsSpace(s[0]) then TrimStart(s[1..]) else s
  }

  /** The string without its trailing whitespace. */
  function TrimEnd(s: string): (r: string)
    ensures |r| <= |s| && (r != [] ==> !Card.IsSpace(r[|r| - 1]))
    decreases |s|
  {
    if s != [] && Card.IsSpace(s[|s| - 1]) then TrimEnd(s[..|s| - 1]) else s
  }

  function DigitValue(c: char): nat
    requires Card.IsDigit(c)
  {
    c as int - '0' as int
  }

  /** The value of a string of decimal digits, most significant first. */
  function DigitsValue(s: string): nat
    requires Card.AllDigits(s)
    decreases |s|
  {
    if s == [] then 0
    else
      assert Card.AllDigits(s[..|s| - 1]);
      DigitsValue(s[..|s| - 1]) * 10 + DigitValue(s[|s| - 1])
  }

  /** The range of PHP's `int` on a 64-bit build. */
  const IntMin: int := -0x8000_0000_0000_0000
  const IntMax: int := 0x7FFF_FFFF_FFFF_FFFF

  predicate AllSpaces(s: string)
  {
    forall i :: 0 <= i < |s| ==> Card.IsSpace(s[i])
  }

  /** The value of a digit run under the sign written before it. */
  function Signed(sign: string, v: int): int
  {
    if sign == "-" then -v else v
  }

  /** A query-string value passed where PHP expects an `?int`, without strict types: an
      integer numeral, possibly signed and surrounded by whitespace, gives its value when
      that fits a 64-bit `int`; any other string raises a TypeError (`None`). */
  function IntArgument(s: string): (r: Option<int>)
    ensures r.Some? ==> s != [] && IntMin <= r.value <= IntMax
  {
    var t := TrimEnd(TrimStart(s));
    var sign := if t != [] && (t[0] == '-' || t[0] == '+') then t[..1] else "";
    var body := t[|sign|..];
    if body != [] && Card.AllDigits(body) then
      var v := Signed(sign, DigitsValue(body));
      if IntMin <= v <= IntMax then Some(v) else None
    else None
  }

  /** Leading whitespace before a character that is not whitespace is all that is trimmed. */
  lemma {:induction false} TrimStartSpaces(w: string, x: string)
    requires AllSpaces(w) && (x == [] || !Card.IsSpace(x[0]))
    ensures TrimStart(w + x) == x
    decreases |w|
  {
    if w != [] {
      assert (w + x)[1..] == w[1..] + x;
      TrimStartSpaces(w[1..], x);
    } else {
      assert w + x == x;
    }
  }

  /** Trailing whitespace after a character that is not whitespace is all that is trimmed. */
  lemma {:induction false} TrimEndSpaces(x: string, w: string)
    requires AllSpaces(w) && (x == [] || !Card.IsSpace(x[|x| - 1]))
    ensures TrimEnd(x + w) == x
    decreases |w|
  {
    if w != [] {
      assert (x + w)[..|x + w| - 1] == x + w[..|w| - 1];
      TrimEndSpaces(x, w[..|w| - 1]);
    } else {
      assert x + w == x;
    }
  }

  /** What `TrimStart` removes is a run of whitespace in front of what it keeps. */
  lemma {:induction false} TrimStartParts(s: string)
    ensures var k := |s| - |TrimStart(s)|; s[k..] == TrimStart(s) && AllSpaces(s[..k])
    decreases |s|
  {
    if s != [] && Card.IsSpace(s[0]) {
      TrimStartParts(s[1..]);
      var k := |s| - |TrimStart(s)|;
      assert s[k..] == s[1..][k - 1..];
      assert s[..k] == [s[0]] + s[1..][..k - 1];
    }
  }

  /** What `TrimEnd` removes is a run of whitespace behind what it keeps. */
  lemma {:induction false} TrimEndParts(s: string)
    ensures var k := |TrimEnd(s)|; s[..k] == TrimEnd(s) && AllSpaces(s[k..])
    decreases |s|
  {
    if s != [] && Card.IsSpace(s[|s| - 1]) {
      var p := s[..|s| - 1];
      TrimEndParts(p);
      var k := |TrimEnd(s)|;
      assert s[..k] == p[..k];
      assert s[k..] == p[k..] + [s[|s| - 1]];
    }
  }

  /** Every numeral reads as its value: whitespace, an optional sign, a run of digits and
      whitespace give the signed value of the digits, or a TypeError when it does not fit
      a 64-bit `int`. */
  lemma IntArgumentOfNumeral(w1: string, sign: string, d: string, w2: string)
    requires AllSpaces(w1) && AllSpaces(w2)
    requires sign == "" || sign == "+" || sign == "-"
    requires d != [] && Card.AllDigits(d)
    ensures IntMin <= Signed(sign, DigitsValue(d)) <= IntMax ==>
      IntArgument(w1 + sign + d + w2) == Some(Signed(sign, DigitsValue(d)))
    ensures !(IntMin <= Signed(sign, DigitsValue(d)) <= IntMax) ==>
      IntArgument(w1 + sign + d + w2) == None
  {
    var t := sign + d;
    assert !Card.IsSpace(t[0]) && !Card.IsSpace(t[|t| - 1]);
    assert w1 + sign + d + w2 == w1 + (t + w2);
    TrimStartSpaces(w1, t + w2);
    TrimEndSpaces(t, w2);
    assert t[..|sign|] == sign && t[|sign|..] == d;
  }

  /** A string is the whitespace trimmed from its front, what both trims keep, and the
      whitespace trimmed from its back. */
  lemma TrimmedParts(s: string) returns (w1: string, w2: string)
    ensures s == w1 + TrimEnd(TrimStart(s)) + w2
    ensures AllSpaces(w1) && AllSpaces(w2)
  {
    var u := TrimStart(s);
    var t := TrimEnd(u);
    TrimStartParts(s);
    TrimEndParts(u);
    w1 := s[..|s| - |u|];
    w2 := u[|t|..];
    assert u == t + w2;
    assert s == w1 + u;
  }

  /** Only a numeral reads as an integer: a string that does splits into whitespace, an
      optional sign, a non-empty run of digits and whitespace, and reads as the signed
      value of those digits. */
  lemma NumeralOfIntArgument(s: string) returns (w1: string, sign: string, d: string, w2: string)
    requires IntArgument(s).Some?
    ensures s == w1 + sign + d + w2
    ensures AllSpaces(w1) && AllSpaces(w2)
    ensures sign == "" || sign == "+" || sign == "-"
    ensures d != [] && Card.AllDigits(d)
    ensures IntArgument(s) == Some(Signed(sign, DigitsValue(d)))
  {
    var t := TrimEnd(TrimStart(s));
    w1, w2 := TrimmedParts(s);
    sign := if t != [] && (t[0] == '-' || t[0] == '+') then t[..1] else "";
    d := t[|sign|..];
    assert t == sign + d;
  }

  /** A natural number written in decimal, without leading zeros. */
  function Decimal(n: nat): (r: string)
    ensures r != [] && Card.AllDigits(r)
  {
    var last := ['0' + (n % 10) as char];
    if n < 10 then last else Decimal(n / 10) + last
  }

  lemma {:induction false} DecimalValue(n: nat)
    ensures DigitsValue(Decimal(n)) == n
  {
    var d := Decimal(n);
    if n >= 10 {
      DecimalValue(n / 10);
      assert d[..|d| - 1] == Decimal(n / 10);
    }
  }

  /** An id written in decimal is read back as that id when it fits a 64-bit `int`;
      a larger one raises a TypeError. */
  lemma DecimalRoundTrip(n: nat)
    ensures n <= IntMax ==> IntArgument(Decimal(n)) == Some(n)
    ensures n > IntMax ==> IntArgument(Decimal(n)) == None
  {
    var d := Decimal(n);
    DecimalValue(n);
    IntArgumentOfNumeral("", "", d, "");
    assert "" + "" + d + "" == d;
  }

  // ----------------------------------------------------------------- the listing

  /** How a listing request is answered. */
  datatype ProductQuery =
    | InvalidDates                                            // 400 from the date filter
    | CategoryTypeError                                       // 500: the search's category is not an integer
    | NameLike(term: string, categoryId: Option<int>)         // name search; the repository orders it by name
    | DateRange                                               // creation-date window; ignores category and sort
    | Criteria(category: Option<string>, order: SortOrder)    // plain `findBy`

  /** The listing's choice of query. A malformed date answers 400 first. Then a search
      term wins, then a date window, and only then the category criteria with the
      requested sort order. The search passes the raw category to an `?int` parameter,
      which filters only when it reads as a non-zero integer; the criteria keep the
      category as a string whenever it is truthy. */
  function ChooseQuery(search: Option<string>, dateError: bool, hasStartDate: bool, hasEndDate: bool,
                       category: Option<string>, sort: Option<string>): (q: ProductQuery)
    ensures q.InvalidDates? <==> dateError
    ensures q.CategoryTypeError? <==>
      !dateError && Truthy(search) && category.Some? && IntArgument(category.value).None?
    ensures q.NameLike? <==>
      !dateError && Truthy(search) && (category.None? || IntArgument(category.value).Some?)
    ensures q.DateRange? <==> !dateError && !Truthy(search) && (hasStartDate || hasEndDate)
    ensures q.Criteria? <==> !dateError && !Truthy(search) && !hasStartDate && !hasEndDate
    ensures q.NameLike? ==> q.term == search.value
    ensures q.NameLike? ==>
      (q.categoryId.Some? <==> category.Some? && IntArgument(category.value) != Some(0))
    ensures q.NameLike? && q.categoryId.Some? ==> IntArgument(category.value) == q.categoryId
    ensures q.Criteria? ==> (q.category.Some? <==> Truthy(category))
    ensures q.Criteria? && q.category.Some? ==> q.category == category
    ensures q.Criteria? ==> q.order == SortFor(sort)
  {
    if dateError then InvalidDates
    else if Truthy(search) then
      if category.None? then NameLike(search.value, None)
      else
        match IntArgument(category.value)
        case None => CategoryTypeError
        case Some(id) => NameLike(search.value, if id != 0 then Some(id) else None)
    else if hasStartDate || hasEndDate then DateRange
    else Criteria(if Truthy(category) then category else None, SortFor(sort))
  }

  /** A requested sort by popularity is honoured only by the plain listing: a search
      term or a date window overrides it. */
  lemma PopularityOnlyWithoutSearchOrDates(search: Option<string>, hasStartDate: bool, hasEndDate: bool,
                                            category: Option<string>)
    ensures var q := ChooseQuery(search, false, hasStartDate, hasEndDate, category, Some("popularity"));
      (q.Criteria? && q.order == SalesDescending) <==> (!Truthy(search) && !hasStartDate && !hasEndDate)
  {
  }

  /** With a search term, a category id written in decimal filters by that id, unless
      it is beyond the 64-bit range, where the call fails. */
  lemma SearchCategoryById(term: string, id: nat)
    requires Truthy(Some(term)) && id != 0
    ensures id <= IntMax ==>
      ChooseQuery(Some(term), false, false, false, Some(Decimal(id)), None) == NameLike(term, Some(id))
    ensures id > IntMax ==>
      ChooseQuery(Some(term), false, false, false, Some(Decimal(id)), None) == CategoryTypeError
  {
    DecimalRoundTrip(id);
  }

  /** With a search term, an empty or non-numeric category fails, and "00" (truthy, but
      zero) filters nothing. */
  lemma SearchCategoryMalformed(term: string)
    requires Truthy(Some(term))
    ensures ChooseQuery(Some(term), false, false, false, Some(""), None) == CategoryTypeError
    ensures ChooseQuery(Some(term), false, false, false, Some("abc"), None) == CategoryTypeError
    ensures ChooseQuery(Some(term), false, false, false, Some("00"), None) == NameLike(term, None)
  {
    var z := "00";
    assert TrimStart(z) == z && TrimEnd(z) == z;
    assert z[..1] == "0";
    var abc := "abc";
    assert TrimStart(abc) == abc && TrimEnd(abc) == abc;
    assert !Card.IsDigit(abc[0]);
  }

  // ------------------------------------------------------------ popular products

  datatype PopularAnswer = PopularAnswer(code: int, limit: int, products: seq<nat>)

  /** The popular-products endpoint: a malformed date answers 400; otherwise the limit
      is capped at 50 (default 20), and a failed query yields an empty list with status
      200 rather than an error. `query` is the repository's answer, `None` when it
      raised. */
  function PopularProducts(limit: Option<int>, dateError: bool, query: Option<seq<nat>>): (r: PopularAnswer)
    ensures r.code == Ok || r.code == BadRequest
    ensures r.code == BadRequest <==> dateError
    ensures r.limit <= 50
    ensures limit.None? ==> r.limit == 20
    ensures limit.Some? ==> r.limit == limit.value || (limit.value > 50 && r.limit == 50)
    ensures dateError || query.None? ==> r.products == []
    ensures !dateError && query.Some? ==> r.products == query.value
  {
    var l := Pagination.CapLimit(limit, 20);
    if dateError then PopularAnswer(BadRequest, l, [])
    else PopularAnswer(Ok, l, if query.Some? then query.value else [])
  }
}
