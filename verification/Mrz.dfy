/** The machine-readable zone of a passport (src/utils/mrz.js): check digits and
    the two 44-character lines of a TD3 document (ICAO Doc 9303 Part 3 section
    4.9, Part 4 section 4.2.2). */
module Mrz {
  import opened Common
  import opened Calendar

  // ------------------------------------------------------------------ check digits

  function CharValue(c: char): nat {
    if '0' <= c <= '9' then (c as int) - 48
    else if 'A' <= c <= 'Z' then (c as int) - 55
    else 0
  }

  // Digits count as themselves, A to Z in order from 10, everything else nothing.
  lemma CharValueMeaning(c: char)
    ensures '0' <= c <= '9' ==> CharValue(c) == c as int - '0' as int
    ensures 'A' <= c <= 'Z' ==> CharValue(c) == 10 + (c as int - 'A' as int)
    ensures !('0' <= c <= '9') && !('A' <= c <= 'Z') ==> CharValue(c) == 0
  {
  }

  // A value at position i, by its weight: 7-3-1 repeating.
  function Weighted(i: nat, value: int): int {
    if i % 3 == 0 then 7 * value else if i % 3 == 1 then 3 * value else value
  }

  function Total(value: string): (total: int)
    ensures total >= 0
  {
    if value == "" then 0
    else Total(value[..|value| - 1]) + Weighted(|value| - 1, CharValue(value[|value| - 1]))
  }

  function CheckDigit(value: string): (d: nat)
    ensures d <= 9
  {
    Total(value) % 10
  }

  method ComputeCheckDigit(value: string) returns (digit: nat)
    ensures digit == CheckDigit(value)
  {
    var total: nat := 0;
    for i := 0 to |value|
      invariant total == Total(value[..i])
    {
      var c := value[i];
      var charValue: nat := 0;
      if '0' <= c <= '9' {
        charValue := (c as int) - 48;
      } else if 'A' <= c <= 'Z' {
        charValue := (c as int) - 55;
      }
      assert value[..i + 1][..i] == value[..i];
      total := total + charValue * [7, 3, 1][i % 3];
    }
    assert value[..|value|] == value;
    return total % 10;
  }

  lemma Prefix(s: string, c: char, total: int)
    requires s != "" && Total(s) + Weighted(|s|, CharValue(c)) == total
    ensures Total(s + [c]) == total
  {
    assert (s + [c])[..|s|] == s;
  }

  // The specimen passport of ICAO Doc 9303 Part 4: its number and its dates.
  lemma SpecimenNumber()
    ensures CheckDigit("L898902C3") == 6
  {
    Prefix("L8", '9', 180);
    assert "L8" + ['9'] == "L89";
    Prefix("L89", '8', 236);
    assert "L89" + ['8'] == "L898";
    Prefix("L898", '9', 263);
    assert "L898" + ['9'] == "L8989";
    Prefix("L8989", '0', 263);
    assert "L8989" + ['0'] == "L89890";
    Prefix("L89890", '2', 277);
    assert "L89890" + ['2'] == "L898902";
    Prefix("L898902", 'C', 313);
    assert "L898902" + ['C'] == "L898902C";
    Prefix("L898902C", '3', 316);
    assert "L898902C" + ['3'] == "L898902C3";
  }

  lemma SpecimenDates()
    ensures CheckDigit("740812") == 2 && CheckDigit("120415") == 9
  {
    Prefix("74", '0', 61);
    assert "74" + ['0'] == "740";
    Prefix("740", '8', 117);
    assert "740" + ['8'] == "7408";
    Prefix("7408", '1', 120);
    assert "7408" + ['1'] == "74081";
    Prefix("74081", '2', 122);
    assert "74081" + ['2'] == "740812";
    Prefix("12", '0', 13);
    assert "12" + ['0'] == "120";
    Prefix("120", '4', 41);
    assert "120" + ['4'] == "1204";
    Prefix("1204", '1', 44);
    assert "1204" + ['1'] == "12041";
    Prefix("12041", '5', 49);
    assert "12041" + ['5'] == "120415";
  }

  lemma {:induction false} TotalOfUpdate(value: string, i: nat, c: char)
    requires i < |value|
    ensures Total(value[i := c]) == Total(value) + Weighted(i, CharValue(c) - CharValue(value[i]))
  {
    var n := |value| - 1;
    if i == n {
      assert value[i := c][..n] == value[..n];
    } else {
      TotalOfUpdate(value[..n], i, c);
      assert value[i := c][..n] == value[..n][i := c];
    }
  }

  lemma DigitOfSum(k: int, r: int)
    ensures (10 * k + r) % 10 == r % 10
  {
  }

  // 7, 3 and 1 have inverses modulo 10.
  lemma WeightsAreUnits(i: nat, d: int)
    ensures Weighted(i, d) % 10 == 0 <==> d % 10 == 0
  {
    DigitOfSum(7 * (d / 10), 7 * (d % 10));
    DigitOfSum(3 * (d / 10), 3 * (d % 10));
  }

  lemma SameDigitIff(a: int, x: int)
    ensures (a + x) % 10 == a % 10 <==> x % 10 == 0
  {
  }

  // Replacing one character goes unnoticed exactly when the values agree modulo 10.
  lemma SubstitutionUnnoticedIff(value: string, i: nat, c: char)
    requires i < |value|
    ensures CheckDigit(value[i := c]) == CheckDigit(value) <==> CharValue(c) % 10 == CharValue(value[i]) % 10
  {
    var d := CharValue(c) - CharValue(value[i]);
    TotalOfUpdate(value, i, c);
    SameDigitIff(Total(value), Weighted(i, d));
    WeightsAreUnits(i, d);
    SameDigitIff(CharValue(value[i]), d);
  }

  function Swapped(value: string, i: nat): string
    requires i + 1 < |value|
  {
    value[i := value[i + 1]][i + 1 := value[i]]
  }

  // What moves from one weight to the next.
  function Shift(i: nat, d: int): int {
    Weighted(i, d) - Weighted(i + 1, d)
  }

  lemma ShiftIsBoth(i: nat, d: int)
    ensures Weighted(i, d) + Weighted(i + 1, -d) == Shift(i, d)
    ensures Shift(i, d) == if i % 3 == 0 then 4 * d else if i % 3 == 1 then 2 * d else -6 * d
  {
  }

  lemma SwapTotal(value: string, i: nat)
    requires i + 1 < |value|
    ensures Total(Swapped(value, i)) == Total(value) + Shift(i, CharValue(value[i + 1]) - CharValue(value[i]))
  {
    var half := value[i := value[i + 1]];
    TotalOfUpdate(value, i, value[i + 1]);
    TotalOfUpdate(half, i + 1, value[i]);
    assert half[i + 1] == value[i + 1];
    ShiftIsBoth(i, CharValue(value[i + 1]) - CharValue(value[i]));
  }

  // Neighbouring weights differ by 4, 2 or -6: twice something with an inverse modulo 5.
  lemma ShiftVanishes(i: nat, d: int)
    ensures Shift(i, d) % 10 == 0 <==> d % 5 == 0
  {
    ShiftIsBoth(i, d);
    if i % 3 == 0 { FourTimes(d); } else if i % 3 == 1 { Twice(d); } else { MinusSixTimes(d); }
  }

  lemma FourTimes(d: int)
    ensures (4 * d) % 10 == 0 <==> d % 5 == 0
  {
    DigitOfSum(2 * (d / 5), 4 * (d % 5));
  }

  lemma Twice(d: int)
    ensures (2 * d) % 10 == 0 <==> d % 5 == 0
  {
    DigitOfSum(d / 5, 2 * (d % 5));
  }

  lemma MinusSixTimes(d: int)
    ensures (-6 * d) % 10 == 0 <==> d % 5 == 0
  {
    DigitOfSum(-3 * (d / 5), -6 * (d % 5));
  }

  lemma SameMod5Iff(a: int, d: int)
    ensures (a + d) % 5 == a % 5 <==> d % 5 == 0
  {
  }

  // Swapping neighbours goes unnoticed exactly when the values agree modulo 5.
  lemma SwapUnnoticedIff(value: string, i: nat)
    requires i + 1 < |value|
    ensures CheckDigit(Swapped(value, i)) == CheckDigit(value) <==> CharValue(value[i]) % 5 == CharValue(value[i + 1]) % 5
  {
    var d := CharValue(value[i + 1]) - CharValue(value[i]);
    SwapTotal(value, i);
    SameDigitIff(Total(value), Shift(i, d));
    ShiftVanishes(i, d);
    SameMod5Iff(CharValue(value[i]), d);
  }

  // ------------------------------------------------------------------ digits

  function DigitOf(c: char): char {
    match c
    case 'O' => '0' case 'Q' => '0' case 'D' => '0'
    case 'I' => '1' case 'L' => '1' case 'Z' => '2'
    case 'S' => '5' case 'G' => '6' case 'B' => '8'
    case _ => c
  }

  // Which characters are read as which digit.
  lemma DigitOfMeaning(c: char)
    ensures DigitOf(c) == '0' <==> c in "0OQD"
    ensures DigitOf(c) == '1' <==> c in "1IL"
    ensures DigitOf(c) == '2' <==> c in "2Z"
    ensures DigitOf(c) == '3' <==> c == '3'
    ensures DigitOf(c) == '4' <==> c == '4'
    ensures DigitOf(c) == '5' <==> c in "5S"
    ensures DigitOf(c) == '6' <==> c in "6G"
    ensures DigitOf(c) == '7' <==> c == '7'
    ensures DigitOf(c) == '8' <==> c in "8B"
    ensures DigitOf(c) == '9' <==> c == '9'
    ensures DigitOf(c) == c || IsDigit(DigitOf(c))
  {
  }

  function ToDigits(value: string): (r: string)
    ensures |r| == |value|
    ensures forall i :: 0 <= i < |r| ==> r[i] == DigitOf(value[i])
  {
    seq(|value|, i requires 0 <= i < |value| => DigitOf(value[i]))
  }

  predicate IsDigit(c: char) {
    '0' <= c <= '9'
  }

  // isCheckDigitValid: "<" stands for 0.
  predicate IsCheckDigitValid(value: string, check: char) {
    var digit := if check == '<' then '0' else DigitOf(check);
    IsDigit(digit) && CheckDigit(value) == (digit as int) - 48
  }

  lemma IsDigitMeaning(c: char)
    ensures IsDigit(c) <==> c in "0123456789"
  {
    if IsDigit(c) { assert "0123456789"[c as int - 48] == c; }
  }

  // A printed check digit is valid exactly when it, or the digit it is misread
  // for, is the computed one; a filler stands for 0.
  lemma CheckMeaning(value: string, check: char)
    ensures check == '<' ==> (IsCheckDigitValid(value, check) <==> CheckDigit(value) == 0)
    ensures check != '<' ==> (IsCheckDigitValid(value, check) <==> DigitOf(check) == "0123456789"[CheckDigit(value)])
  {
    if IsDigit(DigitOf(check)) { assert "0123456789"[DigitOf(check) as int - 48] == DigitOf(check); }
  }

  function Number2(a: char, b: char): int {
    10 * ((a as int) - 48) + ((b as int) - 48)
  }

  datatype DateKind = Birth | Expiry

  // YYMMDD; `thisYear` is the current UTC year.
  function MrzDateToIso(field: string, kind: DateKind, thisYear: int): Option<string>
    requires |field| == 6
  {
    if exists i :: 0 <= i < 6 && !IsDigit(field[i]) then None
    else
      var year := 2000 + Number2(field[0], field[1]);
      ToIsoDate(if kind == Birth && year > thisYear then year - 100 else year,
                Number2(field[2], field[3]), Number2(field[4], field[5]))
  }

  // ------------------------------------------------------------------ names

  predicate IsGap(c: char) {
    c == '<' || c == ' '
  }

  // replace(/</g, " ").replace(/\s+/g, " ")
  function Squeeze(s: string): string {
    if s == "" then ""
    else if IsGap(s[0]) then (if |s| > 1 && IsGap(s[1]) then Squeeze(s[1..]) else " " + Squeeze(s[1..]))
    else [s[0]] + Squeeze(s[1..])
  }

  function TrimStart(s: string): string {
    if s != "" && s[0] == ' ' then TrimStart(s[1..]) else s
  }

  function TrimEnd(s: string): string {
    if s != "" && s[|s| - 1] == ' ' then TrimEnd(s[..|s| - 1]) else s
  }

  function MrzNameToText(value: string): Option<string> {
    var text := TrimEnd(TrimStart(Squeeze(value)));
    if text == "" then None else Some(text)
  }

  // split("<<")
  function Split(s: string): (parts: seq<string>)
    ensures parts != []
  {
    if |s| < 2 then [s]
    else if s[0] == '<' && s[1] == '<' then [""] + Split(s[2..])
    else
      var rest := Split(s[1..]);
      [[s[0]] + rest[0]] + rest[1..]
  }

  function Join(parts: seq<string>, separator: string): string {
    if parts == [] then ""
    else if |parts| == 1 then parts[0]
    else parts[0] + separator + Join(parts[1..], separator)
  }

  // The maximal runs of characters that are no gaps.
  function Words(s: string): (w: seq<string>)
    ensures s != "" && !IsGap(s[0]) ==> w != []
    ensures forall i :: 0 <= i < |w| ==> w[i] != ""
  {
    if s == "" then []
    else if IsGap(s[0]) then Words(s[1..])
    else if |s| == 1 || IsGap(s[1]) then [[s[0]]] + Words(s[1..])
    else
      var w := Words(s[1..]);
      [[s[0]] + w[0]] + w[1..]
  }

  predicate IsWord(w: string) {
    w != "" && forall i :: 0 <= i < |w| ==> !IsGap(w[i])
  }

  predicate AreWords(ws: seq<string>) {
    forall i :: 0 <= i < |ws| ==> IsWord(ws[i])
  }

  lemma {:induction false} WordsAreWords(s: string)
    ensures AreWords(Words(s))
  {
    if s != "" { WordsAreWords(s[1..]); }
  }

  function Lead(s: string): string {
    if s != "" && IsGap(s[0]) then " " else ""
  }

  function Trail(s: string): string {
    if s != "" && IsGap(s[|s| - 1]) && Words(s) != [] then " " else ""
  }

  lemma JoinHead(x: char, w: seq<string>)
    requires w != []
    ensures Join([[x] + w[0]] + w[1..], " ") == [x] + Join(w, " ")
  {
    var v := [[x] + w[0]] + w[1..];
    assert v[1..] == w[1..];
    if |w| > 1 {
      assert [x] + (w[0] + " " + Join(w[1..], " ")) == ([x] + w[0]) + " " + Join(w[1..], " ");
    }
  }

  lemma JoinCons(x: char, w: seq<string>)
    ensures Join([[x]] + w, " ") == [x] + if w == [] then "" else " " + Join(w, " ")
  {
    assert ([[x]] + w)[1..] == w;
  }

  function Shape(s: string): string {
    Lead(s) + (Join(Words(s), " ") + Trail(s))
  }

  lemma ShapeAfterGap(s: string)
    requires |s| > 1 && IsGap(s[0])
    ensures Shape(s) == if IsGap(s[1]) then Shape(s[1..]) else " " + Shape(s[1..])
  {
    var t := s[1..];
    assert t[0] == s[1] && t[|t| - 1] == s[|s| - 1];
    assert Words(s) == Words(t);
  }

  lemma ShapeAfterLetter(s: string)
    requires |s| > 1 && !IsGap(s[0])
    ensures Shape(s) == [s[0]] + Shape(s[1..])
  {
    var t := s[1..];
    assert t[0] == s[1] && t[|t| - 1] == s[|s| - 1];
    var w := Words(t);
    if IsGap(s[1]) {
      JoinCons(s[0], w);
      if w == [] { AllGaps(t); }
    } else {
      JoinHead(s[0], w);
    }
  }

  lemma {:induction false} AllGaps(s: string)
    requires s != "" && Words(s) == []
    ensures IsGap(s[|s| - 1])
  {
    if |s| > 1 { AllGaps(s[1..]); }
  }

  lemma {:induction false} SqueezeShape(s: string)
    ensures s != "" ==> Squeeze(s) == Shape(s)
  {
    if |s| == 1 {
      assert s[1..] == "" && Words("") == [] && Squeeze("") == "";
    } else if |s| > 1 {
      SqueezeShape(s[1..]);
      if IsGap(s[0]) { ShapeAfterGap(s); } else { ShapeAfterLetter(s); }
    }
  }

  lemma {:induction false} JoinEnds(ws: seq<string>)
    requires AreWords(ws) && ws != []
    ensures var t := Join(ws, " "); t != "" && t[0] != ' ' && t[|t| - 1] != ' '
  {
    assert IsWord(ws[0]);
    if |ws| > 1 {
      assert forall i :: 0 <= i < |ws[1..]| ==> IsWord(ws[1..][i]);
      JoinEnds(ws[1..]);
    }
  }

  lemma TrimmedShape(t: string, before: string, after: string)
    requires before in {"", " "} && after in {"", " "} && (t == "" ==> after == "")
    requires t != "" ==> t[0] != ' ' && t[|t| - 1] != ' '
    ensures TrimEnd(TrimStart(before + (t + after))) == t
  {
    var s := t + after;
    assert TrimStart(before + s) == s by {
      if before == " " { assert (before + s)[1..] == s; } else { assert before + s == s; }
    }
    if after == " " {
      assert s[..|s| - 1] == t;
    } else {
      assert s == t;
    }
  }

  // A name is its words with single spaces between them.
  lemma NameIsItsWords(s: string)
    ensures MrzNameToText(s) == if Words(s) == [] then None else Some(Join(Words(s), " "))
  {
    if s != "" {
      WordsAreWords(s);
      SqueezeShape(s);
      if Words(s) != [] { JoinEnds(Words(s)); }
      TrimmedShape(Join(Words(s), " "), Lead(s), Trail(s));
    }
  }

  // ------------------------------------------------------------------ parsing

  datatype Fields = Fields(
    surname: Option<string>, givenNames: Option<string>,
    passportNumber: Option<string>, passportNumberCheckValid: Option<bool>,
    dateOfBirth: Option<string>, dateOfBirthCheckValid: Option<bool>,
    expiryDate: Option<string>, expiryDateCheckValid: Option<bool>,
    compositeCheckValid: Option<bool>)

  const NoFields := Fields(None, None, None, None, None, None, None, None, None)

  function RemoveFillers(s: string): string {
    if s == "" then "" else (if s[0] == '<' then "" else [s[0]]) + RemoveFillers(s[1..])
  }

  function NonEmpty(s: string): Option<string> {
    if s == "" then None else Some(s)
  }

  function ParseLine1(result: Fields, line1: string): Fields {
    var parts := Split(if |line1| > 5 then line1[5..] else "");
    result.(surname := MrzNameToText(parts[0]), givenNames := MrzNameToText(Join(parts[1..], "<")))
  }

  function CompositeInput(line: string): string
    requires |line| == 44
  {
    line[..9] + ToDigits(line[9..10]) + ToDigits(line[13..19]) + ToDigits(line[19..20])
    + ToDigits(line[21..27]) + ToDigits(line[27..28]) + line[28..43]
  }

  function ParseLine2(result: Fields, line2: string, thisYear: int): Fields {
    if |line2| < 28 then result
    else
      var line := if |line2| > 44 then line2[..44] else line2;
      var number, birth, expiry := line[..9], ToDigits(line[13..19]), ToDigits(line[21..27]);
      result.(
        passportNumber := NonEmpty(RemoveFillers(number)),
        passportNumberCheckValid := Some(IsCheckDigitValid(number, line[9])),
        dateOfBirth := MrzDateToIso(birth, Birth, thisYear),
        dateOfBirthCheckValid := Some(IsCheckDigitValid(birth, line[19])),
        expiryDate := MrzDateToIso(expiry, Expiry, thisYear),
        expiryDateCheckValid := Some(IsCheckDigitValid(expiry, line[27])),
        compositeCheckValid := if |line| == 44 then Some(IsCheckDigitValid(CompositeInput(line), line[43])) else None)
  }

  // A line the text does not have is empty, as null and "" are treated alike.
  function ParsePassportMrz(line1: string, line2: string, thisYear: int): Fields {
    ParseLine2(if line1 == "" then NoFields else ParseLine1(NoFields, line1), line2, thisYear)
  }

  lemma {:induction false} OnlyFillers(s: string)
    ensures RemoveFillers(s) == "" <==> forall i :: 0 <= i < |s| ==> s[i] == '<'
  {
    if s != "" {
      OnlyFillers(s[1..]);
      assert forall i :: 0 < i < |s| ==> s[i] == s[1..][i - 1];
    }
  }

  // What is read at all: nothing of a second line below 28 characters, the
  // composite check of a full line only, and no number of fillers alone.
  lemma ReadMeaning(line1: string, line2: string, thisYear: int)
    ensures
      var f := ParsePassportMrz(line1, line2, thisYear);
      && (f.passportNumberCheckValid.Some? <==> |line2| >= 28)
      && (f.dateOfBirthCheckValid.Some? <==> |line2| >= 28) && (f.expiryDateCheckValid.Some? <==> |line2| >= 28)
      && (f.compositeCheckValid.Some? <==> |line2| >= 44)
      && (|line2| < 28 ==> f.passportNumber.None? && f.dateOfBirth.None? && f.expiryDate.None?)
      && (|line2| >= 28 ==> (f.passportNumber.None? <==> forall i :: 0 <= i < 9 ==> line2[..9][i] == '<'))
  {
    if |line2| >= 28 {
      var line := if |line2| > 44 then line2[..44] else line2;
      assert line[..9] == line2[..9];
      OnlyFillers(line2[..9]);
    }
  }

  // A date needs six digits, after the correction.
  lemma DatesNeedDigits(line1: string, line2: string, thisYear: int)
    requires |line2| >= 28
    ensures
      var f := ParsePassportMrz(line1, line2, thisYear);
      && ((exists i :: 0 <= i < 6 && !IsDigit(ToDigits(line2[13..19])[i])) ==> f.dateOfBirth.None?)
      && ((exists i :: 0 <= i < 6 && !IsDigit(ToDigits(line2[21..27])[i])) ==> f.expiryDate.None?)
  {
    var line := if |line2| > 44 then line2[..44] else line2;
    assert line[13..19] == line2[13..19] && line[21..27] == line2[21..27];
  }

  // ------------------------------------------------------------------ building

  function Fill(n: nat): string {
    seq(n, _ => '<')
  }

  function DigitChar(n: nat): char
    requires n <= 9
  {
    '0' + n as char
  }

  function Yymmdd(c: Civil): (s: string)
    requires Real(c)
    ensures |s| == 6
  {
    Two(c.year % 100) + Two(c.month) + Two(c.day)
  }

  // A TD3 document's data: names as words, fillers added where the form asks.
  // Without a personal number its check digit may be printed as a filler too
  // (ICAO Doc 9303 Part 4 section 4.2.2).
  datatype Passport = Passport(
    documentType: char, issuer: string, surname: seq<string>, given: seq<string>,
    number: string, nationality: string, birth: Civil, sex: char, expiry: Civil, personal: string,
    fillerCheck: bool)

  predicate NumberChar(c: char) {
    IsDigit(c) || 'A' <= c <= 'Z'
  }

  predicate WellFormed(p: Passport) {
    && |p.issuer| == 3 && |p.nationality| == 3
    && AreWords(p.surname) && AreWords(p.given) && p.surname != []
    && |Join(p.surname, "<") + "<<" + Join(p.given, "<")| <= 39
    && 1 <= |p.number| <= 9 && (forall i :: 0 <= i < |p.number| ==> NumberChar(p.number[i]))
    && Real(p.birth) && Real(p.expiry) && |p.personal| <= 14 && (p.fillerCheck ==> p.personal == "")
  }

  function Line1(p: Passport): string
    requires WellFormed(p)
  {
    var names := Join(p.surname, "<") + "<<" + Join(p.given, "<");
    ['P', p.documentType] + p.issuer + names + Fill(39 - |names|)
  }

  // The characters before a check digit are those it is computed over.
  function WithCheck(s: string): string {
    s + [DigitChar(CheckDigit(s))]
  }

  // The personal number, its fillers and its check digit.
  function PersonalField(p: Passport): (s: string)
    requires WellFormed(p)
    ensures |s| == 15
  {
    var personal := p.personal + Fill(14 - |p.personal|);
    if p.fillerCheck then personal + "<" else WithCheck(personal)
  }

  function Line2(p: Passport): string
    requires WellFormed(p)
  {
    var number := WithCheck(p.number + Fill(9 - |p.number|));
    var birth, expiry := WithCheck(Yymmdd(p.birth)), WithCheck(Yymmdd(p.expiry));
    var personal := PersonalField(p);
    number + p.nationality + birth + [p.sex] + expiry + personal
    + [DigitChar(CheckDigit(number + birth + expiry + personal))]
  }

  // ------------------------------------------------------------------ round trip: names

  lemma {:induction false} WordsOfFill(n: nat)
    ensures Words(Fill(n)) == []
  {
    if n > 0 {
      WordsOfFill(n - 1);
      assert Fill(n)[1..] == Fill(n - 1);
    }
  }

  lemma {:induction false} WordThenGap(w: string, s: string)
    requires IsWord(w) && (s == "" || IsGap(s[0]))
    ensures Words(w + s) == [w] + Words(s)
  {
    if |w| == 1 {
      assert (w + s)[1..] == s && w == [w[0]];
      assert s != "" ==> (w + s)[1] == s[0];
      assert Words("") == [];
    } else {
      assert IsWord(w[1..]);
      WordThenGap(w[1..], s);
      assert (w + s)[1..] == w[1..] + s;
      assert w == [w[0]] + w[1..];
      assert !IsGap((w + s)[1]);
    }
  }

  lemma GapThenRest(rest: string)
    ensures Words("<" + rest) == Words(rest)
  {
    assert ("<" + rest)[1..] == rest;
  }

  lemma WordGapRest(w: string, rest: string)
    requires IsWord(w)
    ensures Words(w + ("<" + rest)) == [w] + Words(rest)
  {
    WordThenGap(w, "<" + rest);
    GapThenRest(rest);
  }

  lemma JoinStep(ws: seq<string>, s: string)
    requires |ws| > 1
    ensures Join(ws, "<") + s == ws[0] + ("<" + (Join(ws[1..], "<") + s))
  {
  }

  lemma RestAreWords(ws: seq<string>)
    requires AreWords(ws) && ws != []
    ensures IsWord(ws[0]) && AreWords(ws[1..])
  {
  }

  lemma ConsRest(ws: seq<string>, more: seq<string>)
    requires ws != []
    ensures [ws[0]] + (ws[1..] + more) == ws + more
  {
  }

  // Words joined by fillers, then anything that starts with a filler.
  lemma {:induction false} WordsOfJoin(ws: seq<string>, s: string)
    requires AreWords(ws) && (s == "" || IsGap(s[0]))
    ensures Words(Join(ws, "<") + s) == ws + Words(s)
  {
    if ws == [] {
      assert Join(ws, "<") + s == s;
    } else {
      RestAreWords(ws);
      ConsRest(ws, Words(s));
      if |ws| == 1 {
        WordThenGap(ws[0], s);
      } else {
        WordsOfJoin(ws[1..], s);
        JoinStep(ws, s);
        WordGapRest(ws[0], Join(ws[1..], "<") + s);
      }
    }
  }

  // Nothing before the first "<<" is split off.
  lemma {:induction false} SplitAtFirst(a: string, rest: string)
    requires a != "" && a[|a| - 1] != '<'
    requires forall i :: 0 <= i < |a| - 1 ==> !(a[i] == '<' && a[i + 1] == '<')
    ensures Split(a + "<<" + rest) == [a] + Split(rest)
  {
    var s := a + "<<" + rest;
    assert s[1..] == a[1..] + "<<" + rest;
    if |a| == 1 {
      assert s[1..][2..] == rest;
      assert Split(s[1..]) == [""] + Split(rest);
      assert a == [a[0]] + "";
    } else {
      SplitAtFirst(a[1..], rest);
      assert s[0] == a[0] && s[1] == a[1];
      assert a == [a[0]] + a[1..];
    }
  }

  lemma {:induction false} JoinHasNoDouble(ws: seq<string>)
    requires AreWords(ws) && ws != []
    ensures
      var a := Join(ws, "<");
      && a != "" && !IsGap(a[0]) && a[|a| - 1] != '<'
      && forall i :: 0 <= i < |a| - 1 ==> !(a[i] == '<' && a[i + 1] == '<')
  {
    assert IsWord(ws[0]);
    if |ws| > 1 {
      assert AreWords(ws[1..]);
      JoinHasNoDouble(ws[1..]);
      var a, n := Join(ws, "<"), |ws[0]|;
      var rest := Join(ws[1..], "<");
      assert forall i :: 0 <= i < n ==> a[i] == ws[0][i];
      assert a[n] == '<';
      assert forall i :: n < i < |a| ==> a[i] == rest[i - n - 1];
    }
  }

  // Splitting at "<<" and joining with "<" again.
  function Rejoin(s: string): string {
    if |s| < 2 then s
    else if s[0] == '<' && s[1] == '<' then "<" + Rejoin(s[2..])
    else [s[0]] + Rejoin(s[1..])
  }

  lemma JoinOfHead(x: string, parts: seq<string>)
    requires parts != []
    ensures Join([x + parts[0]] + parts[1..], "<") == x + Join(parts, "<")
  {
    assert ([x + parts[0]] + parts[1..])[1..] == parts[1..];
    if |parts| > 1 {
      var rest := "<" + Join(parts[1..], "<");
      assert x + (parts[0] + rest) == (x + parts[0]) + rest;
      assert Join(parts, "<") == parts[0] + rest;
    }
  }

  lemma JoinOfEmptyHead(parts: seq<string>)
    requires parts != []
    ensures Join([""] + parts, "<") == "<" + Join(parts, "<")
  {
    assert ([""] + parts)[1..] == parts;
  }

  lemma {:induction false} NoSeparator(s: string)
    requires forall i :: 0 <= i < |s| - 1 ==> !(s[i] == '<' && s[i + 1] == '<')
    ensures Split(s) == [s]
  {
    if |s| >= 2 {
      forall i | 0 <= i < |s[1..]| - 1 ensures !(s[1..][i] == '<' && s[1..][i + 1] == '<') {
        assert !(s[i + 1] == '<' && s[i + 2] == '<');
      }
      NoSeparator(s[1..]);
      assert !(s[0] == '<' && s[1] == '<');
      assert [s[0]] + s[1..] == s;
    }
  }

  // Without two fillers in a row everything from position 5 on is the surname;
  // shorter first lines have no names.
  lemma SurnameAlone(line1: string, line2: string, thisYear: int)
    requires forall i :: 5 <= i < |line1| - 1 ==> !(line1[i] == '<' && line1[i + 1] == '<')
    ensures
      var f := ParsePassportMrz(line1, line2, thisYear);
      && f.givenNames.None? && f.surname == if |line1| > 5 then MrzNameToText(line1[5..]) else None
  {
    var names := if |line1| > 5 then line1[5..] else "";
    forall i | 0 <= i < |names| - 1 ensures !(names[i] == '<' && names[i + 1] == '<') {
      assert !(line1[5 + i] == '<' && line1[5 + i + 1] == '<');
    }
    NoSeparator(names);
    assert MrzNameToText("").None? && Join([], "<") == "";
  }

  lemma {:induction false} RejoinIsJoinOfSplit(s: string)
    ensures Join(Split(s), "<") == Rejoin(s)
  {
    if |s| < 2 {
    } else if s[0] == '<' && s[1] == '<' {
      RejoinIsJoinOfSplit(s[2..]);
      JoinOfEmptyHead(Split(s[2..]));
    } else {
      RejoinIsJoinOfSplit(s[1..]);
      JoinOfHead([s[0]], Split(s[1..]));
    }
  }

  // It keeps the words.
  lemma {:induction false} RejoinKeepsWords(s: string)
    ensures Words(Rejoin(s)) == Words(s)
    ensures Rejoin(s) == "" <==> s == ""
    ensures s != "" ==> IsGap(Rejoin(s)[0]) == IsGap(s[0])
  {
    if |s| < 2 {
    } else if s[0] == '<' && s[1] == '<' {
      RejoinKeepsWords(s[2..]);
      GapThenRest(Rejoin(s[2..]));
      assert s[1..][1..] == s[2..];
    } else {
      var r := Rejoin(s[1..]);
      RejoinKeepsWords(s[1..]);
      assert ([s[0]] + r)[1..] == r && ([s[0]] + r)[1] == r[0];
    }
  }

  lemma NamesRoundTrip(p: Passport)
    requires WellFormed(p)
    ensures
      var r := ParseLine1(NoFields, Line1(p));
      && r.surname == Some(Join(p.surname, " "))
      && r.givenNames == if p.given == [] then None else Some(Join(p.given, " "))
  {
    var a, b := Join(p.surname, "<"), Join(p.given, "<");
    var names := a + "<<" + b;
    var fill := Fill(39 - |names|);
    var rest := b + fill;
    assert Line1(p)[5..] == a + "<<" + rest;
    JoinHasNoDouble(p.surname);
    SplitAtFirst(a, rest);
    NameIsItsWords(a);
    WordsOfJoin(p.surname, "");
    assert a + "" == a && p.surname + Words("") == p.surname;
    var given := Join(Split(rest), "<");
    assert Split(Line1(p)[5..])[1..] == Split(rest);
    NameIsItsWords(given);
    RejoinIsJoinOfSplit(rest);
    RejoinKeepsWords(rest);
    WordsOfFill(|fill|);
    WordsOfJoin(p.given, fill);
    assert p.given + [] == p.given;
  }

  // ------------------------------------------------------------------ round trip: numbers and dates

  lemma {:induction false} RemoveOnlyFillers(s: string, n: nat)
    requires forall i :: 0 <= i < |s| ==> s[i] != '<'
    ensures RemoveFillers(s + Fill(n)) == s
  {
    if s != "" {
      RemoveOnlyFillers(s[1..], n);
      assert (s + Fill(n))[1..] == s[1..] + Fill(n);
      assert s == [s[0]] + s[1..];
    } else if n > 0 {
      RemoveOnlyFillers(s, n - 1);
      assert (s + Fill(n))[1..] == s + Fill(n - 1);
    }
  }

  lemma DigitsStay(s: string)
    requires forall i :: 0 <= i < |s| ==> IsDigit(s[i])
    ensures ToDigits(s) == s
  {
  }

  lemma TwoIsNumber(n: int)
    requires 0 <= n <= 99
    ensures IsDigit(Two(n)[0]) && IsDigit(Two(n)[1]) && Number2(Two(n)[0], Two(n)[1]) == n
  {
  }

  lemma YymmddDigits(c: Civil)
    requires Real(c)
    ensures
      var f := Yymmdd(c);
      && (forall i :: 0 <= i < 6 ==> IsDigit(f[i]))
      && Number2(f[0], f[1]) == c.year % 100 && Number2(f[2], f[3]) == c.month && Number2(f[4], f[5]) == c.day
  {
    TwoIsNumber(c.year % 100);
    TwoIsNumber(c.month);
    TwoIsNumber(c.day);
  }

  predicate BornWithin99Years(birth: Civil, thisYear: int) {
    thisYear - 99 <= birth.year <= thisYear
  }

  lemma TwoDigitYear(y: int)
    ensures 2000 <= y <= 2099 ==> 2000 + y % 100 == y
    ensures 1900 <= y <= 1999 ==> 2000 + y % 100 == y + 100
  {
  }

  lemma DatesRoundTrip(c: Civil, thisYear: int)
    requires Real(c) && 2000 <= thisYear <= 2099
    ensures BornWithin99Years(c, thisYear) ==> MrzDateToIso(Yymmdd(c), Birth, thisYear) == Some(Iso(c))
    ensures 2000 <= c.year <= 2099 ==> MrzDateToIso(Yymmdd(c), Expiry, thisYear) == Some(Iso(c))
  {
    YymmddDigits(c);
    TwoDigitYear(c.year);
    assert Civil(c.year, c.month, c.day) == c;
  }

  lemma OwnCheckIsValid(s: string)
    ensures IsCheckDigitValid(s, DigitChar(CheckDigit(s)))
    ensures IsDigit(DigitChar(CheckDigit(s)))
  {
  }

  lemma Layout(a: string, b: string, c: string, d: char, e: string, f: string, g: char)
    requires |a| == 10 && |b| == 3 && |c| == 7 && |e| == 7 && |f| == 15
    ensures
      var line := a + b + c + [d] + e + f + [g];
      && |line| == 44 && line[..9] == a[..9] && line[9] == a[9] && line[10..13] == b
      && line[13..19] == c[..6] && line[19] == c[6] && line[20] == d
      && line[21..27] == e[..6] && line[27] == e[6] && line[28..43] == f && line[43] == g
  {
  }

  lemma CheckIsLast(s: string)
    ensures var t := WithCheck(s); |t| == |s| + 1 && t[..|s|] == s && t[|s|] == DigitChar(CheckDigit(s))
  {
  }

  // Where each field lies in the second line.
  lemma Line2Parts(p: Passport)
    requires WellFormed(p)
    ensures
      var line := Line2(p);
      var number := p.number + Fill(9 - |p.number|);
      && |line| == 44
      && line[..9] == number && line[9] == DigitChar(CheckDigit(number))
      && line[10..13] == p.nationality && line[20] == p.sex
      && line[13..19] == Yymmdd(p.birth) && line[19] == DigitChar(CheckDigit(Yymmdd(p.birth)))
      && line[21..27] == Yymmdd(p.expiry) && line[27] == DigitChar(CheckDigit(Yymmdd(p.expiry)))
      && line[28..43] == PersonalField(p)
      && line[43] == DigitChar(CheckDigit(WithCheck(number) + WithCheck(Yymmdd(p.birth)) + WithCheck(Yymmdd(p.expiry)) + PersonalField(p)))
  {
    var number := p.number + Fill(9 - |p.number|);
    CheckIsLast(number);
    CheckIsLast(Yymmdd(p.birth));
    CheckIsLast(Yymmdd(p.expiry));
    Layout(WithCheck(number), p.nationality, WithCheck(Yymmdd(p.birth)), p.sex, WithCheck(Yymmdd(p.expiry)), PersonalField(p),
           DigitChar(CheckDigit(WithCheck(number) + WithCheck(Yymmdd(p.birth)) + WithCheck(Yymmdd(p.expiry)) + PersonalField(p))));
  }

  lemma DigitFieldsOfLine2(p: Passport)
    requires WellFormed(p) && |Line2(p)| == 44
    ensures
      var line := Line2(p);
      && ToDigits(line[9..10]) == [line[9]] && ToDigits(line[19..20]) == [line[19]] && ToDigits(line[27..28]) == [line[27]]
      && ToDigits(line[13..19]) == Yymmdd(p.birth) && ToDigits(line[21..27]) == Yymmdd(p.expiry)
  {
    var line := Line2(p);
    Line2Parts(p);
    YymmddDigits(p.birth);
    YymmddDigits(p.expiry);
    DigitsStay(Yymmdd(p.birth));
    DigitsStay(Yymmdd(p.expiry));
    DigitsStay([line[9]]);
    DigitsStay([line[19]]);
    DigitsStay([line[27]]);
    assert line[9..10] == [line[9]] && line[19..20] == [line[19]] && line[27..28] == [line[27]];
  }

  lemma Regroup(a: string, b: string, c: string, d: string, e: string, f: string, g: string)
    ensures a + b + c + d + e + f + g == (a + b) + (c + d) + (e + f) + g
  {
  }

  lemma CompositeOfLine2(p: Passport)
    requires WellFormed(p)
    ensures |Line2(p)| == 44
    ensures CompositeInput(Line2(p)) ==
            WithCheck(p.number + Fill(9 - |p.number|)) + WithCheck(Yymmdd(p.birth)) + WithCheck(Yymmdd(p.expiry))
            + PersonalField(p)
  {
    Line2Parts(p);
    DigitFieldsOfLine2(p);
    var line := Line2(p);
    Regroup(line[..9], [line[9]], Yymmdd(p.birth), [line[19]], Yymmdd(p.expiry), [line[27]], line[28..43]);
  }

  // Main result: what a TD3 document says is what is read from it.
  lemma ParseRoundTrip(p: Passport, thisYear: int)
    requires WellFormed(p) && 2000 <= thisYear <= 2099
    requires BornWithin99Years(p.birth, thisYear) && 2000 <= p.expiry.year <= 2099
    ensures ParsePassportMrz(Line1(p), Line2(p), thisYear) == Fields(
              Some(Join(p.surname, " ")), if p.given == [] then None else Some(Join(p.given, " ")),
              Some(p.number), Some(true), Some(Iso(p.birth)), Some(true), Some(Iso(p.expiry)), Some(true), Some(true))
  {
    NamesRoundTrip(p);
    Line2Parts(p);
    CompositeOfLine2(p);
    YymmddDigits(p.birth);
    YymmddDigits(p.expiry);
    DigitsStay(Yymmdd(p.birth));
    DigitsStay(Yymmdd(p.expiry));
    DatesRoundTrip(p.birth, thisYear);
    DatesRoundTrip(p.expiry, thisYear);
    RemoveOnlyFillers(p.number, 9 - |p.number|);
    OwnCheckIsValid(p.number + Fill(9 - |p.number|));
    OwnCheckIsValid(Yymmdd(p.birth));
    OwnCheckIsValid(Yymmdd(p.expiry));
    OwnCheckIsValid(CompositeInput(Line2(p)));
  }

  // ------------------------------------------------------------------ misreads

  // The digit-only positions that are corrected.
  predicate Corrected(i: nat) {
    i == 9 || 13 <= i <= 19 || 21 <= i <= 27 || i == 43
  }

  // The same line up to lookalikes in corrected positions.
  ghost predicate SameUpToLookalikes(a: string, b: string) {
    && |a| == |b|
    && forall i: nat :: i < |a| ==> if Corrected(i) then DigitOf(a[i]) == DigitOf(b[i]) else a[i] == b[i]
  }

  lemma SameDigits(a: string, b: string, from: nat, to: nat)
    requires SameUpToLookalikes(a, b) && from <= to <= |a|
    requires forall i :: from <= i < to ==> Corrected(i)
    ensures ToDigits(a[from..to]) == ToDigits(b[from..to])
  {
    forall i | 0 <= i < to - from ensures ToDigits(a[from..to])[i] == ToDigits(b[from..to])[i] {
      assert Corrected(from + i);
    }
  }

  lemma SameChars(a: string, b: string, from: nat, to: nat)
    requires SameUpToLookalikes(a, b) && from <= to <= |a|
    requires forall i :: from <= i < to ==> !Corrected(i)
    ensures a[from..to] == b[from..to]
  {
    forall i | from <= i < to ensures a[i] == b[i] {
      assert !Corrected(i);
    }
  }

  lemma SameCheck(value: string, a: char, b: char)
    requires DigitOf(a) == DigitOf(b)
    ensures IsCheckDigitValid(value, a) == IsCheckDigitValid(value, b)
  {
  }

  lemma SameComposite(a: string, b: string)
    requires SameUpToLookalikes(a, b) && |a| == 44
    ensures CompositeInput(a) == CompositeInput(b)
  {
    SameChars(a, b, 0, 9);
    SameChars(a, b, 28, 43);
    SameDigits(a, b, 9, 10);
    SameDigits(a, b, 13, 19);
    SameDigits(a, b, 19, 20);
    SameDigits(a, b, 21, 27);
    SameDigits(a, b, 27, 28);
  }

  lemma SameLine2(a: string, b: string, result: Fields, thisYear: int)
    requires SameUpToLookalikes(a, b) && |a| <= 44
    ensures ParseLine2(result, a, thisYear) == ParseLine2(result, b, thisYear)
  {
    if |a| >= 28 {
      SameChars(a, b, 0, 9);
      SameDigits(a, b, 13, 19);
      SameDigits(a, b, 21, 27);
      SameCheck(a[..9], a[9], b[9]);
      SameCheck(ToDigits(a[13..19]), a[19], b[19]);
      SameCheck(ToDigits(a[21..27]), a[27], b[27]);
      if |a| == 44 {
        SameComposite(a, b);
        SameCheck(CompositeInput(a), a[43], b[43]);
      }
    }
  }

  // Any number of lookalikes in the corrected positions, of any line, change nothing.
  lemma LookalikesChangeNothing(line1: string, a: string, b: string, thisYear: int)
    requires SameUpToLookalikes(a, b)
    ensures ParsePassportMrz(line1, a, thisYear) == ParsePassportMrz(line1, b, thisYear)
  {
    var result := if line1 == "" then NoFields else ParseLine1(NoFields, line1);
    if |a| > 44 {
      assert forall i: nat :: i < 44 ==> a[..44][i] == a[i] && b[..44][i] == b[i];
      assert SameUpToLookalikes(a[..44], b[..44]);
      SameLine2(a[..44], b[..44], result, thisYear);
    } else {
      SameLine2(a, b, result, thisYear);
    }
  }

  // One digit-only position is not corrected: the personal number's check digit.
  const PERSONAL_CHECK := 42

  predicate Lookalike(read: char, digit: char) {
    IsDigit(digit) && read != digit && DigitOf(read) == digit
  }

  lemma LookalikeValues(read: char, digit: char)
    requires Lookalike(read, digit)
    ensures CharValue(read) % 10 == CharValue(digit) % 10 <==> read in {'L', 'G'}
  {
  }

  lemma MisreadComposite(line: string, read: char)
    requires |line| == 44
    ensures
      var misread := line[PERSONAL_CHECK := read];
      && |CompositeInput(line)| == 39 && CompositeInput(line)[38] == line[PERSONAL_CHECK]
      && CompositeInput(misread) == CompositeInput(line)[38 := read]
  {
    var misread := line[PERSONAL_CHECK := read];
    assert misread[..9] == line[..9] && misread[9..10] == line[9..10] && misread[13..19] == line[13..19]
        && misread[19..20] == line[19..20] && misread[21..27] == line[21..27] && misread[27..28] == line[27..28];
    assert misread[28..43] == line[28..43][14 := read];
  }

  // Read as a letter there, a digit spoils a valid composite check unless the
  // letter is L (for 1) or G (for 6), whose values end in that digit.
  lemma PersonalCheckMisread(p: Passport, read: char, thisYear: int)
    requires WellFormed(p)
    requires |Line2(p)| == 44 && Lookalike(read, Line2(p)[PERSONAL_CHECK])
    ensures ParseLine2(NoFields, Line2(p), thisYear).compositeCheckValid == Some(true)
    ensures ParseLine2(NoFields, Line2(p)[PERSONAL_CHECK := read], thisYear).compositeCheckValid == Some(read in {'L', 'G'})
  {
    var line := Line2(p);
    CompositeOfLine2(p);
    Line2Parts(p);
    var input := CompositeInput(line);
    OwnCheckIsValid(input);
    MisreadComposite(line, read);
    SubstitutionUnnoticedIff(input, 38, read);
    LookalikeValues(read, line[PERSONAL_CHECK]);
    CompositeDecides(line, read);
  }

  // The last character is compared with the check digit of the composite input.
  lemma CompositeDecides(line: string, read: char)
    requires |line| == 44 && IsDigit(line[43]) && (line[43] as int) - 48 == CheckDigit(CompositeInput(line))
    ensures
      var misread := line[PERSONAL_CHECK := read];
      IsCheckDigitValid(CompositeInput(misread), misread[43]) <==> CheckDigit(CompositeInput(misread)) == CheckDigit(CompositeInput(line))
  {
  }

  // ------------------------------------------------------------------ finding the lines

  predicate NameChar(c: char) {
    c == '<' || 'A' <= c <= 'Z'
  }

  // The capital letters and the filler, and nothing else.
  lemma NameCharMeaning(c: char)
    ensures NameChar(c) <==> c == '<' || exists k: nat :: k < 26 && IsLetter(c, k)
  {
    if 'A' <= c <= 'Z' { assert IsLetter(c, c as int - 'A' as int); }
  }

  // The k-th letter of the alphabet.
  predicate IsLetter(c: char, k: nat) {
    c as int == 65 + k
  }

  // [0-9OQDILZSGB]
  predicate DigitLike(c: char) {
    IsDigit(DigitOf(c))
  }

  predicate MrzChar(c: char) {
    NameChar(c) || IsDigit(c)
  }

  predicate LengthOk(line: string) {
    30 <= |line| <= 50
  }

  // MRZ_LINE_1
  predicate MatchesLine1(line: string) {
    && |line| >= 7 && line[0] == 'P'
    && (forall i :: 1 <= i < |line| ==> NameChar(line[i]))
    && exists k :: 5 <= k < |line| - 1 && line[k] == '<' && line[k + 1] == '<'
  }

  // MRZ_LINE_2: the kind of each of the first 28 characters.
  predicate FitsLine2(i: nat, c: char) {
    if i < 9 || i == 20 then MrzChar(c)
    else if 10 <= i < 13 then NameChar(c)
    else if i in {9, 19, 27} then c == '<' || DigitLike(c)
    else DigitLike(c)
  }

  predicate MatchesLine2(line: string) {
    |line| >= 28 && forall i: nat :: i < 28 ==> FitsLine2(i, line[i])
  }

  function First1(lines: seq<string>): Option<string> {
    if lines == [] then None
    else if LengthOk(lines[0]) && MatchesLine1(lines[0]) then Some(lines[0])
    else First1(lines[1..])
  }

  // Never the same line twice.
  function First2(lines: seq<string>, line1: Option<string>): Option<string> {
    if lines == [] then None
    else if LengthOk(lines[0]) && MatchesLine2(lines[0]) && Some(lines[0]) != line1 then Some(lines[0])
    else First2(lines[1..], line1)
  }

  // findPassportMrz, on the cleaned lines of a text.
  function FindPassportMrz(lines: seq<string>): (Option<string>, Option<string>) {
    var line1 := First1(lines);
    (line1, First2(lines, line1))
  }

  predicate AllNames(s: string) {
    forall i :: 0 <= i < |s| ==> NameChar(s[i])
  }

  predicate CheckChar(c: char) {
    c == '<' || DigitLike(c)
  }

  // A first line: P, four characters for type and issuer, and names that hold
  // two fillers in a row.
  lemma Line1Grammar(line: string)
    ensures MatchesLine1(line) <==> exists head, a, b :: Line1Parts(line, head, a, b)
  {
    if MatchesLine1(line) {
      var k :| 5 <= k < |line| - 1 && line[k] == '<' && line[k + 1] == '<';
      assert line == "P" + line[1..5] + line[5..k] + "<<" + line[k + 2..];
      assert Line1Parts(line, line[1..5], line[5..k], line[k + 2..]);
    }
    if head, a, b :| Line1Parts(line, head, a, b) {
      FromParts(line, head, a, b);
    }
  }

  ghost predicate Line1Parts(line: string, head: string, a: string, b: string) {
    line == "P" + head + a + "<<" + b && |head| == 4 && AllNames(head) && AllNames(a) && AllNames(b)
  }

  lemma FromParts(line: string, head: string, a: string, b: string)
    requires Line1Parts(line, head, a, b)
    ensures MatchesLine1(line)
  {
    var k := 5 + |a|;
    assert line[k] == '<' && line[k + 1] == '<';
    forall i | 1 <= i < |line| ensures NameChar(line[i]) {
      if i < 5 {
        assert line[i] == head[i - 1];
      } else if i < k {
        assert line[i] == a[i - 5];
      } else if i >= k + 2 {
        assert line[i] == b[i - k - 2];
      }
    }
  }

  // A second line: number, check, nationality, birth, check, sex, expiry, check;
  // what follows is free.
  lemma Line2Grammar(line: string)
    ensures MatchesLine2(line) <==>
      && |line| >= 28
      && (forall i :: 0 <= i < 9 ==> MrzChar(line[i])) && CheckChar(line[9])
      && AllNames(line[10..13])
      && (forall i :: 13 <= i < 19 ==> DigitLike(line[i])) && CheckChar(line[19])
      && MrzChar(line[20])
      && (forall i :: 21 <= i < 27 ==> DigitLike(line[i])) && CheckChar(line[27])
  {
    if |line| >= 28 {
      assert forall i :: 10 <= i < 13 ==> line[i] == line[10..13][i - 10];
      if MatchesLine2(line) {
        forall i | 0 <= i < 28 ensures FitsLine2(i, line[i]) {}
        assert FitsLine2(9, line[9]) && FitsLine2(19, line[19]) && FitsLine2(20, line[20]) && FitsLine2(27, line[27]);
      }
    }
  }

  predicate CanBeLine1(line: string) {
    30 <= |line| <= 50 && MatchesLine1(line)
  }

  predicate CanBeLine2(line: string, line1: Option<string>) {
    30 <= |line| <= 50 && MatchesLine2(line) && Some(line) != line1
  }

  // Each line is the first that can be it, and missing only when none can.
  lemma {:induction false} First1Meaning(lines: seq<string>)
    ensures forall k :: 0 <= k < |lines| && CanBeLine1(lines[k]) && (forall j :: 0 <= j < k ==> !CanBeLine1(lines[j])) ==>
              First1(lines) == Some(lines[k])
    ensures First1(lines).None? <==> forall k :: 0 <= k < |lines| ==> !CanBeLine1(lines[k])
  {
    if lines != [] {
      var rest := lines[1..];
      First1Meaning(rest);
      assert forall k :: 0 < k < |lines| ==> lines[k] == rest[k - 1];
      forall k | 0 <= k < |lines| && CanBeLine1(lines[k]) && (forall j :: 0 <= j < k ==> !CanBeLine1(lines[j]))
        ensures First1(lines) == Some(lines[k])
      {
        if k > 0 { assert CanBeLine1(rest[k - 1]) && forall j :: 0 <= j < k - 1 ==> !CanBeLine1(rest[j]); }
      }
    }
  }

  lemma {:induction false} First2Meaning(lines: seq<string>, line1: Option<string>)
    ensures forall k :: 0 <= k < |lines| && CanBeLine2(lines[k], line1) && (forall j :: 0 <= j < k ==> !CanBeLine2(lines[j], line1)) ==>
              First2(lines, line1) == Some(lines[k])
    ensures First2(lines, line1).None? <==> forall k :: 0 <= k < |lines| ==> !CanBeLine2(lines[k], line1)
  {
    if lines != [] {
      var rest := lines[1..];
      First2Meaning(rest, line1);
      assert forall k :: 0 < k < |lines| ==> lines[k] == rest[k - 1];
      forall k | 0 <= k < |lines| && CanBeLine2(lines[k], line1) && (forall j :: 0 <= j < k ==> !CanBeLine2(lines[j], line1))
        ensures First2(lines, line1) == Some(lines[k])
      {
        if k > 0 { assert CanBeLine2(rest[k - 1], line1) && forall j :: 0 <= j < k - 1 ==> !CanBeLine2(rest[j], line1); }
      }
    }
  }

  // What a real passport prints: letters in names, known characters elsewhere.
  predicate Printed(p: Passport) {
    && WellFormed(p) && NameChar(p.documentType) && MrzChar(p.sex)
    && (forall i :: 0 <= i < 3 ==> NameChar(p.issuer[i]) && NameChar(p.nationality[i]))
    && (forall i :: 0 <= i < |Join(p.surname, "<")| ==> NameChar(Join(p.surname, "<")[i]))
    && (forall i :: 0 <= i < |Join(p.given, "<")| ==> NameChar(Join(p.given, "<")[i]))
  }

  lemma Line1Matches(p: Passport)
    requires Printed(p)
    ensures |Line1(p)| == 44 && MatchesLine1(Line1(p))
  {
    var a, b := Join(p.surname, "<"), Join(p.given, "<");
    var names := a + "<<" + b;
    var fill := Fill(39 - |names|);
    var line := Line1(p);
    assert line == ['P', p.documentType] + p.issuer + (a + "<<" + b) + fill;
    assert line[5 + |a|] == '<' && line[5 + |a| + 1] == '<';
    forall i | 1 <= i < |line| ensures NameChar(line[i]) {
      if i == 1 {
      } else if i < 5 {
        assert line[i] == p.issuer[i - 2];
      } else if i < 5 + |a| {
        assert line[i] == a[i - 5];
      } else if 7 + |a| <= i < 7 + |a| + |b| {
        assert line[i] == b[i - 7 - |a|];
      } else {
        assert line[i] == '<';
      }
    }
  }

  lemma PartsFit(line: string)
    requires |line| >= 28
    requires forall i :: 0 <= i < 9 ==> MrzChar(line[..9][i])
    requires forall i :: 0 <= i < 3 ==> NameChar(line[10..13][i])
    requires forall i :: 0 <= i < 6 ==> DigitLike(line[13..19][i]) && DigitLike(line[21..27][i])
    requires DigitLike(line[9]) && DigitLike(line[19]) && DigitLike(line[27]) && MrzChar(line[20])
    ensures MatchesLine2(line)
  {
    forall i: nat | i < 28 ensures FitsLine2(i, line[i]) {
      if i < 9 {
        assert line[i] == line[..9][i];
      } else if 10 <= i < 13 {
        assert line[i] == line[10..13][i - 10];
      } else if 13 <= i < 19 {
        assert line[i] == line[13..19][i - 13];
      } else if 21 <= i < 27 {
        assert line[i] == line[21..27][i - 21];
      }
    }
  }

  lemma DigitsAreDigitLike(s: string)
    requires forall i :: 0 <= i < |s| ==> IsDigit(s[i])
    ensures forall i :: 0 <= i < |s| ==> DigitLike(s[i])
  {
  }

  lemma ChecksAreDigitLike(p: Passport)
    requires WellFormed(p) && |Line2(p)| == 44
    ensures DigitLike(Line2(p)[9]) && DigitLike(Line2(p)[19]) && DigitLike(Line2(p)[27])
  {
    Line2Parts(p);
    OwnCheckIsValid(p.number + Fill(9 - |p.number|));
    OwnCheckIsValid(Yymmdd(p.birth));
    OwnCheckIsValid(Yymmdd(p.expiry));
    DigitsAreDigitLike([Line2(p)[9], Line2(p)[19], Line2(p)[27]]);
    var checks := [Line2(p)[9], Line2(p)[19], Line2(p)[27]];
    assert DigitLike(checks[0]) && DigitLike(checks[1]) && DigitLike(checks[2]);
  }

  lemma Line2Matches(p: Passport)
    requires Printed(p)
    ensures |Line2(p)| == 44 && MatchesLine2(Line2(p))
  {
    Line2Parts(p);
    ChecksAreDigitLike(p);
    YymmddDigits(p.birth);
    YymmddDigits(p.expiry);
    DigitsAreDigitLike(Yymmdd(p.birth));
    DigitsAreDigitLike(Yymmdd(p.expiry));
    PartsFit(Line2(p));
  }

  // A line stays a second line under any lookalikes in corrected positions.
  lemma LookalikesStillMatch(a: string, b: string)
    requires SameUpToLookalikes(a, b) && MatchesLine2(a)
    ensures MatchesLine2(b)
  {
    forall i: nat | i < 28 ensures FitsLine2(i, b[i]) {
      assert FitsLine2(i, a[i]);
    }
  }

  predicate Unrelated(lines: seq<string>) {
    forall i :: 0 <= i < |lines| ==> !MatchesLine1(lines[i]) && !MatchesLine2(lines[i])
  }

  lemma {:induction false} SkipUnrelated(before: seq<string>, rest: seq<string>, line1: Option<string>)
    requires Unrelated(before)
    ensures First1(before + rest) == First1(rest) && First2(before + rest, line1) == First2(rest, line1)
  {
    if before == [] {
      assert before + rest == rest;
    } else {
      SkipUnrelated(before[1..], rest, line1);
      assert (before + rest)[1..] == before[1..] + rest;
    }
  }

  lemma LinesAreFound(p: Passport, read: string, before: seq<string>, between: seq<string>, after: seq<string>)
    requires Printed(p) && SameUpToLookalikes(Line2(p), read) && read != Line1(p)
    requires Unrelated(before) && Unrelated(between)
    ensures FindPassportMrz(before + ([Line1(p)] + (between + ([read] + after)))) == (Some(Line1(p)), Some(read))
  {
    var tail := between + ([read] + after);
    var one := Some(Line1(p));
    Line1Matches(p);
    Line2Matches(p);
    LookalikesStillMatch(Line2(p), read);
    SkipUnrelated(before, [Line1(p)] + tail, one);
    SkipUnrelated(between, [read] + after, one);
    assert ([Line1(p)] + tail)[1..] == tail;
  }

  // From the text of a page to the fields: the two lines are found among any
  // unrelated ones, even with lookalikes in the second, and read correctly.
  lemma PageRoundTrip(p: Passport, read: string, before: seq<string>, between: seq<string>, after: seq<string>, thisYear: int)
    requires Printed(p) && 2000 <= thisYear <= 2099
    requires BornWithin99Years(p.birth, thisYear) && 2000 <= p.expiry.year <= 2099
    requires SameUpToLookalikes(Line2(p), read) && read != Line1(p)
    requires Unrelated(before) && Unrelated(between)
    ensures
      var (line1, line2) := FindPassportMrz(before + ([Line1(p)] + (between + ([read] + after))));
      && line1 == Some(Line1(p)) && line2 == Some(read)
      && ParsePassportMrz(line1.value, line2.value, thisYear) == Fields(
           Some(Join(p.surname, " ")), if p.given == [] then None else Some(Join(p.given, " ")),
           Some(p.number), Some(true), Some(Iso(p.birth)), Some(true), Some(Iso(p.expiry)), Some(true), Some(true))
  {
    LinesAreFound(p, read, before, between, after);
    ParseRoundTrip(p, thisYear);
    LookalikesChangeNothing(Line1(p), Line2(p), read, thisYear);
  }
}
