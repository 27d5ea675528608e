/** The pure helpers of utils/helpers.ts: the token-lifetime test, the menu
    filter, Vietnamese accent stripping and the avatar initial, price
    formatting and the `HH:mm | DD/MM/YYYY` date string. */
module Helpers {
  import opened Models
  import opened Text
  import Seqs

  // ---------------------------------------------------------------------
  // isExpiredTimeToken
  // ---------------------------------------------------------------------

  /** isExpiredTimeToken. Despite its name it answers "is the token still
      alive": login time plus `exp` minutes lies after now. Times are
      milliseconds since the epoch; `None` is a login date moment cannot
      parse, whose comparison is always false. */
  function IsExpiredTimeToken(loginMs: Option<int>, expMinutes: int, nowMs: int): (alive: bool)
    ensures loginMs.None? ==> !alive
    ensures loginMs.Some? ==> (alive <==> nowMs - loginMs.value < expMinutes * 60000)
  {
    match loginMs
    case None => false
    case Some(t) => t + expMinutes * 60000 > nowMs
  }

  /** A token that has run out stays out: the answer can only turn from true
      to false as time passes. */
  lemma TokenLifetimeMonotone(loginMs: Option<int>, expMinutes: int, nowMs: int, laterMs: int)
    requires nowMs <= laterMs
    requires IsExpiredTimeToken(loginMs, expMinutes, laterMs)
    ensures IsExpiredTimeToken(loginMs, expMinutes, nowMs)
  {
  }

  // ---------------------------------------------------------------------
  // filterMenuByRole
  // ---------------------------------------------------------------------

  function HasRole(role: int): MenuEntry -> bool
  {
    (e: MenuEntry) => role in e.roles
  }

  /** filterMenuByRole: no role, no menu; otherwise the entries whose roles
      include the role, in menu order. */
  function FilterMenuByRole(menu: seq<MenuEntry>, roleId: Option<int>): (r: seq<MenuEntry>)
    ensures roleId.None? ==> r == []
    ensures roleId.Some? ==> Seqs.IsSubsequence(r, menu)
    ensures roleId.Some? ==> forall i :: 0 <= i < |r| ==> roleId.value in r[i].roles
    ensures roleId.Some? ==> forall i :: 0 <= i < |menu| && roleId.value in menu[i].roles ==> menu[i] in r
  {
    match roleId
    case None => []
    case Some(role) =>
      Seqs.FilterIsSubsequence(menu, HasRole(role));
      Seqs.Filter(menu, HasRole(role))
  }

  /** The filtered menu is the only order-preserving sublist of the menu that
      holds just entries for the role and keeps all of them. */
  lemma FilterMenuByRoleIsMaximal(menu: seq<MenuEntry>, role: int, t: seq<MenuEntry>)
    requires Seqs.IsSubsequence(t, menu)
    requires forall i :: 0 <= i < |t| ==> role in t[i].roles
    requires Seqs.IsSubsequence(FilterMenuByRole(menu, Some(role)), t)
    ensures t == FilterMenuByRole(menu, Some(role))
  {
    forall x | x in t
      ensures HasRole(role)(x)
    {
      var i :| 0 <= i < |t| && t[i] == x;
    }
    Seqs.FilterUnique(menu, HasRole(role), t);
  }

  // ---------------------------------------------------------------------
  // handleLowerCaseNonAccentVietnamese
  // ---------------------------------------------------------------------

  /** The accented lower-case vowels each replacement of the helper lists,
      as single precomposed code points. */
  const A_FORMS: set<char> := {'\U{E0}', '\U{E1}', '\U{1EA1}', '\U{1EA3}', '\U{E3}', '\U{E2}', '\U{1EA7}', '\U{1EA5}',
    '\U{1EAD}', '\U{1EA9}', '\U{1EAB}', '\U{103}', '\U{1EB1}', '\U{1EAF}', '\U{1EB7}', '\U{1EB3}', '\U{1EB5}'}
  const E_FORMS: set<char> := {'\U{E8}', '\U{E9}', '\U{1EB9}', '\U{1EBB}', '\U{1EBD}', '\U{EA}', '\U{1EC1}', '\U{1EBF}',
    '\U{1EC7}', '\U{1EC3}', '\U{1EC5}'}
  const I_FORMS: set<char> := {'\U{EC}', '\U{ED}', '\U{1ECB}', '\U{1EC9}', '\U{129}'}
  const O_FORMS: set<char> := {'\U{F2}', '\U{F3}', '\U{1ECD}', '\U{1ECF}', '\U{F5}', '\U{F4}', '\U{1ED3}', '\U{1ED1}',
    '\U{1ED9}', '\U{1ED5}', '\U{1ED7}', '\U{1A1}', '\U{1EDD}', '\U{1EDB}', '\U{1EE3}', '\U{1EDF}', '\U{1EE1}'}
  const U_FORMS: set<char> := {'\U{F9}', '\U{FA}', '\U{1EE5}', '\U{1EE7}', '\U{169}', '\U{1B0}', '\U{1EEB}', '\U{1EE9}',
    '\U{1EF1}', '\U{1EED}', '\U{1EEF}'}
  const Y_FORMS: set<char> := {'\U{1EF3}', '\U{FD}', '\U{1EF5}', '\U{1EF7}', '\U{1EF9}'}
  const D_STROKE: char := '\U{111}'

  /** The combining tone marks (grave, acute, tilde, hook, dot below) and the
      modifier circumflex, combining breve and combining horn. */
  const MARKS: set<char> := {'\U{300}', '\U{301}', '\U{303}', '\U{309}', '\U{323}', '\U{2C6}', '\U{306}', '\U{31B}'}

  /** A character one of the seven replacements rewrites. */
  predicate IsAccented(c: char) {
    c in A_FORMS || c in E_FORMS || c in I_FORMS || c in O_FORMS || c in U_FORMS || c in Y_FORMS || c == D_STROKE
  }

  predicate IsMark(c: char) {
    c in MARKS
  }

  /** The seven replacements, one character at a time. Every pattern is a
      single code point and the lists are disjoint, so applying them in turn
      to a string is applying this map to each character. */
  function BaseLetter(c: char): (b: char)
    ensures !IsAccented(b)
    ensures !IsAccented(c) ==> b == c
    ensures IsAccented(c) ==> 'a' <= b <= 'y'
  {
    if c in A_FORMS then 'a'
    else if c in E_FORMS then 'e'
    else if c in I_FORMS then 'i'
    else if c in O_FORMS then 'o'
    else if c in U_FORMS then 'u'
    else if c in Y_FORMS then 'y'
    else if c == D_STROKE then 'd'
    else c
  }

  /** Lower-casing first means the base letters come out lower-case too. */
  lemma BaseOfLowerIsLower(c: char)
    ensures ToLowerChar(BaseLetter(ToLowerChar(c))) == BaseLetter(ToLowerChar(c))
  {
    ToLowerCharIdempotent(c);
  }

  /** `toLowerCase` followed by the seven replacements. */
  function LowerBase(s: string): (r: string)
    ensures |r| == |s|
    ensures forall i :: 0 <= i < |s| ==> r[i] == BaseLetter(ToLowerChar(s[i]))
    ensures forall i :: 0 <= i < |r| ==> ToLowerChar(r[i]) == r[i] && !IsAccented(r[i])
  {
    if |s| == 0 then ""
    else
      BaseOfLowerIsLower(s[0]);
      [BaseLetter(ToLowerChar(s[0]))] + LowerBase(s[1..])
  }

  function NotMark(c: char): bool {
    !IsMark(c)
  }

  /** handleLowerCaseNonAccentVietnamese: lower-case, replace every accented
      vowel and "đ" by its base letter, then delete the combining marks. */
  function StripAccents(s: string): (r: string)
    ensures |r| <= |s|
    ensures forall i :: 0 <= i < |r| ==> !IsAccented(r[i]) && !IsMark(r[i])
    ensures ToLower(r) == r
  {
    var based := LowerBase(s);
    var r := Seqs.Filter(based, NotMark);
    assert forall x :: x in based ==> ToLowerChar(x) == x && !IsAccented(x);
    r
  }

  /** Text that is already lower-case and free of accents and marks passes
      through unchanged. */
  lemma StripAccentsKeepsPlain(s: string)
    requires ToLower(s) == s
    requires forall i :: 0 <= i < |s| ==> !IsAccented(s[i]) && !IsMark(s[i])
    ensures StripAccents(s) == s
  {
    assert LowerBase(s) == s;
  }

  /** A second pass changes nothing. */
  lemma StripAccentsIdempotent(s: string)
    ensures StripAccents(StripAccents(s)) == StripAccents(s)
  {
    StripAccentsKeepsPlain(StripAccents(s));
  }

  /** Each accented letter, in either case, and "Đ"/"đ" become the plain
      lower-case base letter. */
  lemma StripAccentsOfLetter(c: char)
    requires IsAccented(ToLowerChar(c))
    ensures StripAccents([c]) == [BaseLetter(ToLowerChar(c))]
    ensures 'a' <= BaseLetter(ToLowerChar(c)) <= 'y'
  {
    var b := BaseLetter(ToLowerChar(c));
    assert LowerBase([c]) == [b];
    assert Seqs.Filter([b], NotMark) == [b];
  }

  /** Lower-casing and the replacements neither create nor remove a
      combining mark. */
  lemma BaseKeepsMarks(c: char)
    ensures IsMark(BaseLetter(ToLowerChar(c))) <==> IsMark(c)
  {
    if IsMark(c) {
      assert ToLowerChar(c) == c;
    } else {
      var l := ToLowerChar(c);
      assert !IsMark(l);
    }
  }

  /** StripAccents on one character: a mark disappears, anything else
      becomes its lower-case base letter. */
  lemma StripAccentsOfChar(c: char)
    ensures StripAccents([c]) == if IsMark(c) then "" else [BaseLetter(ToLowerChar(c))]
  {
    var b := BaseLetter(ToLowerChar(c));
    assert LowerBase([c]) == [b];
    BaseKeepsMarks(c);
    Seqs.FilterSingleton(b, NotMark);
  }

  /** A lone combining mark is deleted. */
  lemma StripAccentsOfMark(c: char)
    requires IsMark(c)
    ensures StripAccents([c]) == ""
  {
    StripAccentsOfChar(c);
  }

  // ---------------------------------------------------------------------
  // generateFallbackAvatar: the initial
  // ---------------------------------------------------------------------

  /** The text drawn in the fallback avatar: the first character of the
      name, upper-cased, then passed through StripAccents. */
  function AvatarInitial(fullname: string): (r: string)
    ensures |r| <= 1
    ensures fullname == "" ==> r == ""
    ensures ToLower(r) == r
    ensures forall i :: 0 <= i < |r| ==> !IsAccented(r[i]) && !IsMark(r[i])
  {
    if fullname == "" then "" else StripAccents(ToUpper(fullname[..1]))
  }

  /** Upper-casing the first character before stripping is undone by the
      stripper's own lower-casing: the initial is the stripped first
      character. */
  lemma AvatarInitialIsStrippedFirst(fullname: string)
    requires fullname != ""
    ensures AvatarInitial(fullname) == StripAccents(fullname[..1])
  {
    LowerOfUpperChar(fullname[0]);
    assert ToLower(ToUpper(fullname[..1])) == ToLower(fullname[..1]);
  }

  /** The initial is fixed by the first character alone: a combining mark
      gives "", anything else its lower-case base letter; so "Đức" gives "d"
      and "Ánh" gives "a". */
  lemma AvatarInitialOfFirst(fullname: string)
    requires fullname != ""
    ensures AvatarInitial(fullname) ==
      if IsMark(fullname[0]) then "" else [BaseLetter(ToLowerChar(fullname[0]))]
  {
    AvatarInitialIsStrippedFirst(fullname);
    var b := BaseLetter(ToLowerChar(fullname[0]));
    assert fullname[..1] == [fullname[0]];
    StripAccentsOfChar(fullname[0]);
  }

  // ---------------------------------------------------------------------
  // formatPrice
  // ---------------------------------------------------------------------

  /** What formatPrice is handed: a number, a string of digits (what the price
      inputs feed it), or a string Number() reads as NaN. */
  datatype PriceInput = Num(n: nat) | Digits(s: DigitString) | NotANumber

  /** Number(value) for the inputs that are numbers. */
  function NumericValue(v: PriceInput): nat
    requires !v.NotANumber?
  {
    match v
    case Num(n) => n
    case Digits(s) => DigitsValue(s)
  }

  /** JavaScript truthiness of the input: 0 and "" are falsy, "0" is not. */
  predicate Truthy(v: PriceInput) {
    match v
    case Num(n) => n != 0
    case Digits(s) => s != ""
    case NotANumber => true
  }

  /** The shape `\B(?=(\d{3})+(?!\d))` produces: digits with a "." exactly at
      the positions that are a multiple of four from the right end. So the
      first group has one to three digits, the others exactly three, and the
      string neither starts nor ends with ".". */
  predicate Grouped(r: string) {
    && |r| > 0
    && |r| % 4 != 0
    && (forall i :: 0 <= i < |r| ==> (r[i] == '.' <==> (|r| - i) % 4 == 0))
    && (forall i :: 0 <= i < |r| ==> r[i] == '.' || IsDigit(r[i]))
  }

  function NotDot(c: char): bool {
    c != '.'
  }

  /** `s.replace(/\./g, "")`: every "." removed. */
  function StripDots(s: string): (r: string)
    ensures forall i :: 0 <= i < |r| ==> r[i] != '.'
  {
    Seqs.Filter(s, NotDot)
  }

  lemma StripDotsAppend(a: string, b: string)
    ensures StripDots(a + b) == StripDots(a) + StripDots(b)
  {
    Seqs.FilterAppend(a, b, NotDot);
  }

  lemma StripDotsOfDigits(s: string)
    requires AllDigits(s)
    ensures StripDots(s) == s
  {
  }

  /** One to three digits are already grouped. */
  lemma ShortGrouped(d: string)
    requires 0 < |d| <= 3 && AllDigits(d)
    ensures Grouped(d)
  {
  }

  /** A grouped string followed by "." and three digits is grouped. */
  lemma GroupedExtend(g: string, t: string)
    requires Grouped(g) && |t| == 3 && AllDigits(t)
    ensures Grouped(g + "." + t)
  {
    var r := g + "." + t;
    forall i | 0 <= i < |r|
      ensures (r[i] == '.' <==> (|r| - i) % 4 == 0) && (r[i] == '.' || IsDigit(r[i]))
    {
      if i < |g| {
        assert r[i] == g[i];
        assert (|r| - i) % 4 == (|g| - i) % 4 by {
          assert |r| - i == (|g| - i) + 4;
        }
      } else if i > |g| {
        assert r[i] == t[i - |g| - 1];
      }
    }
  }

  /** A grouped string longer than three characters is a grouped string, a
      ".", and three digits. */
  lemma GroupedSplit(r: string)
    requires Grouped(r) && |r| > 3
    ensures |r| >= 5
    ensures Grouped(r[..|r| - 4]) && r[|r| - 4] == '.'
    ensures AllDigits(r[|r| - 3..])
    ensures r == r[..|r| - 4] + "." + r[|r| - 3..]
  {
    var p := r[..|r| - 4];
    forall i | 0 <= i < |p|
      ensures (p[i] == '.' <==> (|p| - i) % 4 == 0)
    {
      assert p[i] == r[i];
      assert (|r| - i) % 4 == (|p| - i) % 4 by {
        assert |r| - i == (|p| - i) + 4;
      }
    }
    var t := r[|r| - 3..];
    forall i | 0 <= i < 3
      ensures IsDigit(t[i])
    {
      assert t[i] == r[|r| - 3 + i];
      assert (|r| - (|r| - 3 + i)) % 4 != 0;
    }
  }

  /** The regex replacement on a numeral: a "." before every run of three
      digits that ends the string and has a digit before it. */
  function Group(d: string): (r: string)
    requires |d| > 0 && AllDigits(d)
    ensures Grouped(r)
    ensures StripDots(r) == d
    decreases |d|
  {
    if |d| <= 3 then
      ShortGrouped(d);
      StripDotsOfDigits(d);
      d
    else
      var g := Group(d[..|d| - 3]);
      var t := d[|d| - 3..];
      GroupedExtend(g, t);
      StripDotsAroundDot(g, t);
      assert d[..|d| - 3] + t == d;
      g + "." + t
  }

  /** The grouping is the only way to dot a numeral in this shape: any
      Grouped string is the Group of its digits. */
  lemma {:induction false} GroupedIsGroup(r: string)
    requires Grouped(r)
    ensures |StripDots(r)| > 0 && AllDigits(StripDots(r))
    ensures Group(StripDots(r)) == r
    decreases |r|
  {
    if |r| <= 3 {
      forall i | 0 <= i < |r|
        ensures r[i] != '.'
      {
        assert 0 < |r| - i <= 3;
      }
      StripDotsOfDigits(r);
    } else {
      GroupedSplit(r);
      var p := r[..|r| - 4];
      var t := r[|r| - 3..];
      GroupedIsGroup(p);
      var dp := StripDots(p);
      StripDotsAroundDot(p, t);
      GroupOfAppend(dp, t);
    }
  }

  /** Removing the dots of `p + "." + t`, with t all digits. */
  lemma StripDotsAroundDot(p: string, t: string)
    requires AllDigits(t)
    ensures StripDots(p + "." + t) == StripDots(p) + t
  {
    StripDotsAppend(p + ".", t);
    StripDotsAppend(p, ".");
    StripDotsOfDigits(t);
    assert StripDots(".") == [];
  }

  /** Grouping a numeral with three more digits adds one group. */
  lemma GroupOfAppend(dp: string, t: string)
    requires |dp| > 0 && AllDigits(dp) && |t| == 3 && AllDigits(t)
    ensures Group(dp + t) == Group(dp) + "." + t
  {
    var d := dp + t;
    assert d[..|d| - 3] == dp;
    assert d[|d| - 3..] == t;
  }

  /** formatPrice: "" for a falsy or non-numeric value; otherwise the floor
      of the number (the inputs here are integers already) in decimal with
      its digits grouped by ".". The step that deletes "." from
      `intValue.toString()` has nothing to delete for an integer. */
  function FormatPrice(v: PriceInput): (r: string)
    ensures !Truthy(v) || v.NotANumber? ==> r == ""
    ensures Truthy(v) && !v.NotANumber? ==> Grouped(r) && StripDots(r) == NatToString(NumericValue(v))
  {
    if !Truthy(v) || v.NotANumber? then "" else Group(NatToString(NumericValue(v)))
  }

  /** Removing every "." from a formatted positive price gives back the
      decimal string of the number, and hence the number itself; and the
      formatted string is the only grouped string with those digits. */
  lemma FormatPriceRoundTrip(n: nat, r: string)
    requires n > 0
    ensures var digits := StripDots(FormatPrice(Num(n)));
      Canonical(digits) && DigitsValue(digits) == n
    ensures Grouped(r) && StripDots(r) == NatToString(n) ==> r == FormatPrice(Num(n))
  {
    if Grouped(r) && StripDots(r) == NatToString(n) {
      GroupedIsGroup(r);
    }
  }

  /** The string input "0" is truthy, so it formats as "0" while the number
      0 formats as "". */
  lemma FormatPriceZero()
    ensures FormatPrice(Num(0)) == ""
    ensures FormatPrice(Digits("0")) == "0"
  {
    assert NatToString(0) == "0";
    ShortGrouped("0");
  }

  lemma NumeralExample()
    ensures NatToString(1234) == "1234"
  {
    var s := "1234";
    assert "12"[..1] == "1";
    assert DigitsValue("12") == 12;
    assert "123"[..2] == "12";
    assert DigitsValue("123") == 123;
    assert s[..3] == "123";
    assert DigitsValue(s) == 1234;
    NatToStringOfValue(s);
  }

  lemma GroupExample()
    ensures Group("1234") == "1.234"
  {
    assert "1234"[..1] == "1";
    assert "1234"[1..] == "234";
  }

  lemma FormatPriceExample()
    ensures FormatPrice(Num(1234)) == "1.234"
  {
    NumeralExample();
    GroupExample();
  }

  // ---------------------------------------------------------------------
  // formatDateTimeVN
  // ---------------------------------------------------------------------

  /** The UTC fields a valid Date yields; `month0` is getUTCMonth (0-based). */
  datatype DateParts = DateParts(hours: nat, minutes: nat, day: nat, month0: nat, year: int)

  predicate ValidDateParts(d: DateParts) {
    d.hours < 24 && d.minutes < 60 && 1 <= d.day <= 31 && d.month0 < 12
  }

  /** `n.toString().padStart(2, '0')`. */
  function TwoDigits(n: nat): string {
    PadStart(NatToString(n), 2, '0')
  }

  lemma TwoDigitsShape(n: nat)
    requires n < 100
    ensures |TwoDigits(n)| == 2 && AllDigits(TwoDigits(n)) && DigitsValue(TwoDigits(n)) == n
  {
    if n >= 10 {
      assert NatToString(n) == NatToString(n / 10) + [DigitChar(n % 10)];
    }
    PadStartZerosValue(NatToString(n), 2);
  }

  lemma TwoDigitsLength(n: nat)
    requires n < 100
    ensures |TwoDigits(n)| == 2
  {
    TwoDigitsShape(n);
  }

  /** `${hh}:${mm} | ${dd}/${mo}/${year}` with two-character fields. */
  function DateTimeLayout(hh: string, mm: string, dd: string, mo: string, year: string): (s: string)
    requires |hh| == 2 && |mm| == 2 && |dd| == 2 && |mo| == 2
    ensures |s| == 14 + |year|
    ensures s[0..2] == hh && s[2] == ':' && s[3..5] == mm && s[5..8] == " | "
    ensures s[8..10] == dd && s[10] == '/' && s[11..13] == mo && s[13] == '/' && s[14..] == year
  {
    var time := hh + ":" + mm;
    var date := dd + "/" + mo + "/" + year;
    var s := time + " | " + date;
    assert s[0..5] == time;
    assert s[8..] == date;
    assert time[0..2] == hh && time[3..5] == mm;
    assert date[0..2] == dd && date[3..5] == mo && date[6..] == year;
    s
  }

  /** formatDateTimeVN on the result of `new Date(inputDate)`: `None` is an
      invalid date, which throws. */
  function FormatDateTimeVN(date: Option<DateParts>): (r: Result<string>)
    requires date.Some? ==> ValidDateParts(date.value)
    ensures date.None? <==> r == Err("Invalid date format")
    ensures date.Some? ==> r.Ok? && |r.value| > 14
    ensures date.Some? ==> var s := r.value;
      s[2] == ':' && s[5..8] == " | " && s[10] == '/' && s[13] == '/'
  {
    match date
    case None => Err("Invalid date format")
    case Some(d) =>
      TwoDigitsLength(d.hours);
      TwoDigitsLength(d.minutes);
      TwoDigitsLength(d.day);
      TwoDigitsLength(d.month0 + 1);
      Ok(DateTimeLayout(TwoDigits(d.hours), TwoDigits(d.minutes), TwoDigits(d.day),
                        TwoDigits(d.month0 + 1), IntToString(d.year)))
  }

  /** Reads `HH:mm | DD/MM/YYYY` back into its fields. */
  function ParseDateTimeVN(s: string): Option<DateParts>
  {
    if |s| > 14 && s[2] == ':' && s[5..8] == " | " && s[10] == '/' && s[13] == '/'
       && AllDigits(s[0..2]) && AllDigits(s[3..5]) && AllDigits(s[8..10]) && AllDigits(s[11..13])
       && IsIntString(s[14..]) && DigitsValue(s[11..13]) >= 1
    then Some(DateParts(DigitsValue(s[0..2]), DigitsValue(s[3..5]), DigitsValue(s[8..10]),
                        DigitsValue(s[11..13]) - 1, ParseInt(s[14..])))
    else None
  }

  /** The composed string determines the date: each field is zero-padded to
      exactly two digits (the month printed 1-based), so nothing is lost. */
  lemma FormatDateTimeVNRoundTrip(d: DateParts)
    requires ValidDateParts(d)
    ensures ParseDateTimeVN(FormatDateTimeVN(Some(d)).value) == Some(d)
  {
    TwoDigitsShape(d.hours);
    TwoDigitsShape(d.minutes);
    TwoDigitsShape(d.day);
    TwoDigitsShape(d.month0 + 1);
    ParseIntString(d.year);
  }
}
