/** The admin page's course form: the difficulty → badge map, the
    comma-separated id lists, the number fields read with `parseInt`, and
    the request body built from them. */
module AdminForm {
  import opened Results
  import opened Text
  import opened CourseModel
  import Catalog

  // ---------------------------------------------------------------------
  // Difficulty → badge

  /** The tier each level is paired with on the form. */
  function TierFor(d: Difficulty): BadgeTier
  {
    match d
    case Beginner => Bronze
    case Intermediate => Silver
    case Advanced => Gold
  }

  /** `badgeTypeMap[difficulty]`: undefined for anything but the three
      level names (an inherited property such as "constructor" yields a
      function, which the request body drops just the same). */
  function BadgeTypeFor(difficulty: string): (badge: Option<string>)
    ensures badge.Some? <==> difficulty in {"beginner", "intermediate", "advanced"}
    ensures badge.Some? ==> badge.value in {"bronze", "silver", "gold"}
  {
    if difficulty == "beginner" then Some("bronze")
    else if difficulty == "intermediate" then Some("silver")
    else if difficulty == "advanced" then Some("gold")
    else None
  }

  /** The map pairs each level's name with its tier's name, which the
      schema reads back as that tier. */
  lemma BadgeMapAgreesWithSchema(d: Difficulty)
    ensures BadgeTypeFor(DifficultyName(d)) == Some(TierName(TierFor(d)))
    ensures ParseTier(BadgeTypeFor(DifficultyName(d))) == Ok(TierFor(d))
  {
  }

  // ---------------------------------------------------------------------
  // Id lists

  function TrimAll(parts: seq<string>): (r: seq<string>)
    ensures |r| == |parts|
    ensures forall i :: 0 <= i < |r| ==> r[i] == Trim(parts[i])
  {
    if parts == [] then [] else [Trim(parts[0])] + TrimAll(parts[1..])
  }

  /** `filter(Boolean)` on strings: drops the empty ones, keeps the order. */
  function DropEmpty(parts: seq<string>): (r: seq<string>)
    ensures |r| <= |parts|
    ensures forall i :: 0 <= i < |r| ==> r[i] != ""
    ensures forall x :: x in r <==> x in parts && x != ""
    ensures (forall i :: 0 <= i < |parts| ==> parts[i] != "") ==> r == parts
    ensures |parts| == 1 ==> r == if parts[0] == "" then [] else parts
  {
    if parts == [] then []
    else (if parts[0] == "" then [] else [parts[0]]) + DropEmpty(parts[1..])
  }

  /** The filter works piece by piece: with the one-piece case above, this
      fixes the order and multiplicity of what is kept. */
  lemma {:induction false} DropEmptyAppend(a: seq<string>, b: seq<string>)
    ensures DropEmpty(a + b) == DropEmpty(a) + DropEmpty(b)
  {
    if a == [] {
      assert a + b == b;
    } else {
      assert (a + b)[0] == a[0] && (a + b)[1..] == a[1..] + b;
      DropEmptyAppend(a[1..], b);
    }
  }

  /** `value.split(',').map(s => s.trim()).filter(Boolean)`. */
  function ParseIdList(s: string): (ids: seq<string>)
    ensures ids == DropEmpty(TrimAll(Split(s, ',')))
    ensures forall i :: 0 <= i < |ids| ==> ids[i] != ""
    ensures forall i :: 0 <= i < |ids| ==> IsTrimmed(ids[i])
    ensures forall i :: 0 <= i < |ids| ==> ',' !in ids[i]
  {
    var pieces := Split(s, ',');
    var trimmed := TrimAll(pieces);
    var ids := DropEmpty(trimmed);
    forall i | 0 <= i < |ids| ensures IsTrimmed(ids[i]) && ',' !in ids[i] {
      assert ids[i] in trimmed;
      var j :| 0 <= j < |trimmed| && trimmed[j] == ids[i];
      assert ',' !in pieces[j];
    }
    ids
  }

  /** Whatever is typed between the commas, the ids are the typed pieces,
      trimmed, with the empty ones dropped, in the order typed. */
  lemma ParseIdListOfJoin(pieces: seq<string>)
    requires |pieces| >= 1
    requires forall i :: 0 <= i < |pieces| ==> ',' !in pieces[i]
    ensures ParseIdList(Join(pieces, ',')) == DropEmpty(TrimAll(pieces))
  {
    SplitJoin(pieces, ',');
  }

  /** Ids typed as a comma-joined list come back in the same order. */
  lemma ParseIdListJoin(ids: seq<string>)
    requires forall i :: 0 <= i < |ids| ==> ids[i] != "" && IsTrimmed(ids[i]) && ',' !in ids[i]
    ensures ParseIdList(Join(ids, ',')) == ids
  {
    if ids == [] {
      assert Split("", ',') == [""];
      assert TrimAll([""]) == [""];
    } else {
      ParseIdListOfJoin(ids);
      TrimAllKeeps(ids);
    }
  }

  lemma {:induction false} TrimAllKeeps(parts: seq<string>)
    requires forall i :: 0 <= i < |parts| ==> IsTrimmed(parts[i])
    ensures TrimAll(parts) == parts
  {
    if parts != [] {
      TrimAllKeeps(parts[1..]);
    }
  }

  // ---------------------------------------------------------------------
  // parseInt

  predicate IsDecimalDigit(c: char)
  {
    '0' <= c <= '9'
  }

  predicate IsDigitIn(c: char, radix: int)
  {
    if radix == 16 then IsDecimalDigit(c) || 'a' <= c <= 'f' || 'A' <= c <= 'F'
    else IsDecimalDigit(c)
  }

  function DigitValue(c: char): (v: nat)
    ensures IsDecimalDigit(c) ==> v == c as int - '0' as int && v < 10
  {
    if IsDecimalDigit(c) then c as int - '0' as int
    else if 'a' <= c <= 'f' then c as int - 'a' as int + 10
    else if 'A' <= c <= 'F' then c as int - 'A' as int + 10
    else 0
  }

  /** The longest prefix of digits in the radix. */
  function DigitPrefix(s: string, radix: int): (d: string)
    ensures |d| <= |s| && d == s[..|d|]
    ensures forall i :: 0 <= i < |d| ==> IsDigitIn(d[i], radix)
    ensures |d| < |s| ==> !IsDigitIn(s[|d|], radix)
  {
    if s == [] || !IsDigitIn(s[0], radix) then []
    else [s[0]] + DigitPrefix(s[1..], radix)
  }

  /** The digits read most significant first. */
  function DigitsValue(d: string, radix: nat): nat
  {
    if d == [] then 0 else DigitsValue(d[..|d| - 1], radix) * radix + DigitValue(d[|d| - 1])
  }

  /** `parseInt(s)` with no radix; None stands for NaN. Leading white space
      is skipped, one sign is read, and the rest is read as an unsigned
      number; whatever follows its digits is ignored. */
  function ParseInt(s: string): (r: Option<int>)
  {
    ParseSigned(TrimStart(s))
  }

  /** One optional sign, then an unsigned number. */
  function ParseSigned(t: string): (r: Option<int>)
  {
    var negative := |t| > 0 && t[0] == '-';
    var rest := if |t| > 0 && (t[0] == '-' || t[0] == '+') then t[1..] else t;
    match ParseUnsigned(rest)
    case None => None
    case Some(value) =>
      var v: int := value;
      Some(if negative then -v else v)
  }

  predicate IsHexPrefix(s: string)
  {
    |s| >= 2 && s[0] == '0' && (s[1] == 'x' || s[1] == 'X')
  }

  /** "0x"/"0X" switches to hexadecimal; then the longest run of digits is read. */
  function ParseUnsigned(s: string): Option<nat>
  {
    if IsHexPrefix(s) then ReadDigits(s[2..], 16) else ReadDigits(s, 10)
  }

  /** The value of the longest digit prefix, or NaN when there is none. */
  function ReadDigits(s: string, radix: nat): Option<nat>
  {
    var digits := DigitPrefix(s, radix);
    if digits == [] then None else Some(DigitsValue(digits, radix))
  }

  /** The decimal numeral of n. */
  function Decimal(n: nat): (d: string)
    ensures |d| >= 1
    ensures forall i :: 0 <= i < |d| ==> IsDecimalDigit(d[i])
    ensures d[0] == '0' ==> n == 0 && d == "0"
  {
    if n < 10 then [('0' as int + n) as char]
    else Decimal(n / 10) + [('0' as int + n % 10) as char]
  }

  lemma {:induction false} DecimalValue(n: nat)
    ensures DigitsValue(Decimal(n), 10) == n
  {
    var d := Decimal(n);
    if n >= 10 {
      assert d[..|d| - 1] == Decimal(n / 10);
      DecimalValue(n / 10);
    }
  }

  lemma {:induction false} DigitPrefixOfDigits(a: string, b: string, radix: int)
    requires forall i :: 0 <= i < |a| ==> IsDigitIn(a[i], radix)
    requires b == [] || !IsDigitIn(b[0], radix)
    ensures DigitPrefix(a + b, radix) == a
  {
    if a == [] {
      assert a + b == b;
    } else {
      assert (a + b)[0] == a[0] && (a + b)[1..] == a[1..] + b;
      DigitPrefixOfDigits(a[1..], b, radix);
    }
  }

  /** A decimal numeral, followed by anything that is not a digit and does
      not turn a lone 0 into a hexadecimal prefix, reads back as its value. */
  lemma ParseIntDecimal(n: nat, tail: string)
    requires tail == [] || (!IsDecimalDigit(tail[0]) && tail[0] != 'x' && tail[0] != 'X')
    ensures ParseInt(Decimal(n) + tail) == Some(n)
  {
    var s := Decimal(n) + tail;
    DecimalNotHex(n, tail);
    ParseIntUnsigned(s);
    ReadDecimal(n, tail);
  }

  lemma ReadDecimal(n: nat, tail: string)
    requires tail == [] || !IsDecimalDigit(tail[0])
    ensures ReadDigits(Decimal(n) + tail, 10) == Some(n)
  {
    DigitPrefixOfDigits(Decimal(n), tail, 10);
    DecimalValue(n);
  }

  /** A minus sign before a decimal numeral negates its value. */
  lemma ParseIntNegative(n: nat, tail: string)
    requires tail == [] || (!IsDecimalDigit(tail[0]) && tail[0] != 'x' && tail[0] != 'X')
    ensures ParseInt("-" + Decimal(n) + tail) == Some(-(n as int))
  {
    var rest := Decimal(n) + tail;
    assert "-" + Decimal(n) + tail == "-" + rest;
    MinusNotSpace(rest);
    ParseSignedMinus(rest);
    DecimalNotHex(n, tail);
    ReadDecimal(n, tail);
  }

  lemma MinusNotSpace(rest: string)
    ensures TrimStart("-" + rest) == "-" + rest
  {
    var s := "-" + rest;
    assert !IsSpace(s[0]);
    TrimStartKeeps(s);
  }

  lemma ParseSignedMinus(rest: string)
    ensures ParseSigned("-" + rest)
            == if ParseUnsigned(rest).Some? then Some(-(ParseUnsigned(rest).value as int)) else None
  {
    var s := "-" + rest;
    assert s[0] == '-' && s[1..] == rest;
  }

  /** White space before the number is skipped. */
  lemma ParseIntSkipsSpace(c: char, s: string)
    requires IsSpace(c)
    ensures ParseInt([c] + s) == ParseInt(s)
  {
    assert ([c] + s)[1..] == s;
    assert TrimStart([c] + s) == TrimStart(s);
  }

  lemma DecimalNotHex(n: nat, tail: string)
    requires tail == [] || (tail[0] != 'x' && tail[0] != 'X')
    ensures var s := Decimal(n) + tail; s[0] == Decimal(n)[0] && !IsHexPrefix(s)
  {
    var d := Decimal(n);
    var s := d + tail;
    assert s[0] == d[0];
    if |s| >= 2 && s[0] == '0' {
      assert d == "0";
      assert s[1] == tail[0];
    }
  }

  /** A string that starts with a decimal digit and no hexadecimal prefix is
      read as its longest decimal digit prefix. */
  lemma ParseIntUnsigned(s: string)
    requires s != [] && IsDecimalDigit(s[0]) && !IsHexPrefix(s)
    ensures ParseInt(s) == ReadDigits(s, 10)
  {
    assert !IsSpace(s[0]);
    TrimStartKeeps(s);
    assert ParseUnsigned(s) == ReadDigits(s, 10);
  }

  /** A lone 0 followed by "x" is read as a hexadecimal prefix. */
  lemma ZeroXIsHex()
    ensures ParseInt("0x1A") == Some(26)
  {
    var s := "0x1A";
    assert !IsSpace(s[0]);
    TrimStartKeeps(s);
    assert IsHexPrefix(s) && s[2..] == "1A";
    assert DigitPrefix("1A", 16) == "1A" by { DigitPrefixOfDigits("1A", [], 16); }
    assert DigitsValue("1A", 16) == 26 by {
      assert "1A"[..1] == "1";
      assert DigitsValue("1", 16) == 1 by { assert "1"[..0] == ""; }
    }
  }

  /** With no digit after it, the hexadecimal prefix reads as NaN. */
  lemma ZeroXAloneIsNaN()
    ensures ParseInt("0x") == None
  {
    var s := "0x";
    assert !IsSpace(s[0]);
    TrimStartKeeps(s);
    assert IsHexPrefix(s) && s[2..] == [];
  }

  /** "0x" and a run of hexadecimal digits, followed by anything that is not
      one, reads back as the value of those digits in base 16. */
  lemma ParseIntHex(digits: string, tail: string)
    requires digits != [] && forall i :: 0 <= i < |digits| ==> IsDigitIn(digits[i], 16)
    requires tail == [] || !IsDigitIn(tail[0], 16)
    ensures ParseInt("0x" + digits + tail) == Some(DigitsValue(digits, 16))
  {
    var rest := digits + tail;
    assert "0x" + digits + tail == "0x" + rest;
    ParseIntHexPrefix(rest);
    ReadHex(digits, tail);
  }

  lemma ReadHex(digits: string, tail: string)
    requires digits != [] && forall i :: 0 <= i < |digits| ==> IsDigitIn(digits[i], 16)
    requires tail == [] || !IsDigitIn(tail[0], 16)
    ensures ReadDigits(digits + tail, 16) == Some(DigitsValue(digits, 16))
  {
    DigitPrefixOfDigits(digits, tail, 16);
  }

  lemma ParseIntHexPrefix(rest: string)
    ensures ParseInt("0x" + rest) == ReadDigits(rest, 16)
  {
    var s := "0x" + rest;
    assert !IsSpace(s[0]);
    TrimStartKeeps(s);
    assert s[0] != '-' && s[0] != '+';
    assert IsHexPrefix(s) && s[2..] == rest;
  }

  // ---------------------------------------------------------------------
  // The request body

  /** The raw values of the form's fields. */
  datatype CourseForm = CourseForm(
    title: string, description: string, thumbnail: string, difficulty: string,
    totalSections: string, totalQuizzes: string, sectionIds: string, quizIds: string,
    html: string, css: string, js: string)

  /** The body POSTed to the course route. NaN serialises as null, which the
      route then treats like an absent count. */
  function CoursePayload(form: CourseForm): (input: Catalog.CourseInput)
    ensures input.title == Some(form.title) && input.description == Some(form.description)
    ensures input.difficulty == Some(form.difficulty)
    ensures input.courseCode == Some(Catalog.CodeInput(Some(form.html), Some(form.css), Some(form.js)))
    ensures input.badgeType == BadgeTypeFor(form.difficulty)
    ensures input.thumbnail == Some(if form.thumbnail == "" then DefaultThumbnail else form.thumbnail)
    ensures input.metadata.Some? && input.courseCode.Some?
    ensures input.metadata.value.sectionIds == Some(ParseIdList(form.sectionIds))
    ensures input.metadata.value.quizIds == Some(ParseIdList(form.quizIds))
    ensures input.metadata.value.totalSections == ParseInt(form.totalSections)
    ensures input.metadata.value.totalQuizzes == ParseInt(form.totalQuizzes)
  {
    Catalog.CourseInput(
      Some(form.title), Some(form.description),
      Some(if form.thumbnail == "" then DefaultThumbnail else form.thumbnail),
      Some(form.difficulty), BadgeTypeFor(form.difficulty),
      Some(Catalog.CodeInput(Some(form.html), Some(form.css), Some(form.js))),
      Some(Catalog.MetadataInput(ParseInt(form.totalSections), ParseInt(form.totalQuizzes),
                                 Some(ParseIdList(form.sectionIds)), Some(ParseIdList(form.quizIds)))))
  }

  /** A form with a title, a description and one of the three levels
      creates a course with the paired badge tier; any other level is
      refused by the schema. */
  lemma FormCreatesCourse(form: CourseForm, id: ObjectId, createdBy: ObjectId, now: Time)
    ensures var r := Catalog.Created(id, CoursePayload(form), createdBy, now);
            && (r.Ok? <==> form.title != "" && form.description != ""
                           && form.difficulty in {"beginner", "intermediate", "advanced"})
            && (r.Ok? ==> r.value.badgeType == TierFor(r.value.difficulty)
                          && DifficultyName(r.value.difficulty) == form.difficulty
                          && r.value.metadata.sectionIds == ParseIdList(form.sectionIds)
                          && r.value.metadata.quizIds == ParseIdList(form.quizIds))
  {
    var input := CoursePayload(form);
    var r := Catalog.Created(id, input, createdBy, now);
    if r.Ok? {
      var d := ParseDifficulty(Some(form.difficulty)).value;
      BadgeMapAgreesWithSchema(d);
    }
  }

  /** The counts are read apart from the lists: a form may declare three
      sections and name none. */
  lemma CountsNotCheckedAgainstLists()
    ensures var m := CoursePayload(CourseForm("T", "D", "", "beginner", "3", "0", "", "", "", "", "")).metadata.value;
            m.totalSections == Some(3) && m.sectionIds == Some([])
  {
    ParseIntDecimal(3, "");
    assert Decimal(3) + "" == "3";
    ParseIdListJoin([]);
  }
}
