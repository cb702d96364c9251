/**
  The pure helpers of the browser client (script.js): HTML escaping of text before it is
  placed in markup, the letter grade of two scores, and the ordered required-field check
  the form runs before it submits.
 */
module Client {
  import opened Wrappers

  // ---------------------------------------------------------------- escapeHtml

  /** `.replace(/c/g, rep)`: every occurrence of `c` replaced by `rep`. */
  function ReplaceAll(s: string, c: char, rep: string): (r: string)
    ensures c !in rep ==> c !in r
    ensures c !in s ==> r == s
    ensures |rep| >= 1 ==> |r| >= |s|
  {
    if s == [] then []
    else (if s[0] == c then rep else [s[0]]) + ReplaceAll(s[1..], c, rep)
  }

  predicate IsHtmlSpecial(c: char) {
    c == '&' || c == '<' || c == '>' || c == '"' || c == '\''
  }

  /** The five replacements in the order the client applies them, `&` first. */
  function EscapeHtml(s: string): (r: string)
    ensures |r| >= |s|
  {
    var amp := ReplaceAll(s, '&', "&amp;");
    var lt := ReplaceAll(amp, '<', "&lt;");
    var gt := ReplaceAll(lt, '>', "&gt;");
    var quot := ReplaceAll(gt, '"', "&quot;");
    ReplaceAll(quot, '\'', "&#39;")
  }

  /** The entity a single character becomes. */
  function EscapeChar(c: char): string {
    match c
    case '&' => "&amp;"
    case '<' => "&lt;"
    case '>' => "&gt;"
    case '"' => "&quot;"
    case '\'' => "&#39;"
    case _ => [c]
  }

  /** Escaping character by character, each character independently. */
  function EscapeEach(s: string): string {
    if s == [] then [] else EscapeChar(s[0]) + EscapeEach(s[1..])
  }

  /** Decoding of the five entities, as a browser reads the escaped text back. */
  function Unescape(s: string): string
    decreases |s|
  {
    if s == [] then []
    else if |s| >= 5 && s[..5] == "&amp;" then "&" + Unescape(s[5..])
    else if |s| >= 4 && s[..4] == "&lt;" then "<" + Unescape(s[4..])
    else if |s| >= 4 && s[..4] == "&gt;" then ">" + Unescape(s[4..])
    else if |s| >= 6 && s[..6] == "&quot;" then "\"" + Unescape(s[6..])
    else if |s| >= 5 && s[..5] == "&#39;" then "'" + Unescape(s[5..])
    else [s[0]] + Unescape(s[1..])
  }

  lemma {:induction false} ReplaceAllAppend(a: string, b: string, c: char, rep: string)
    ensures ReplaceAll(a + b, c, rep) == ReplaceAll(a, c, rep) + ReplaceAll(b, c, rep)
  {
    if a == [] {
      assert a + b == b;
    } else {
      assert (a + b)[1..] == a[1..] + b;
      ReplaceAllAppend(a[1..], b, c, rep);
    }
  }

  lemma EscapeHtmlAppend(a: string, b: string)
    ensures EscapeHtml(a + b) == EscapeHtml(a) + EscapeHtml(b)
  {
    var a1, b1 := ReplaceAll(a, '&', "&amp;"), ReplaceAll(b, '&', "&amp;");
    ReplaceAllAppend(a, b, '&', "&amp;");
    var a2, b2 := ReplaceAll(a1, '<', "&lt;"), ReplaceAll(b1, '<', "&lt;");
    ReplaceAllAppend(a1, b1, '<', "&lt;");
    var a3, b3 := ReplaceAll(a2, '>', "&gt;"), ReplaceAll(b2, '>', "&gt;");
    ReplaceAllAppend(a2, b2, '>', "&gt;");
    var a4, b4 := ReplaceAll(a3, '"', "&quot;"), ReplaceAll(b3, '"', "&quot;");
    ReplaceAllAppend(a3, b3, '"', "&quot;");
    ReplaceAllAppend(a4, b4, '\'', "&#39;");
  }

  lemma ReplaceAllSingle(c: char, x: char, rep: string)
    ensures ReplaceAll([c], x, rep) == if c == x then rep else [c]
  {
    assert [c][1..] == [];
  }

  lemma EscapeHtmlChar(c: char)
    ensures EscapeHtml([c]) == EscapeChar(c)
  {
    var e := EscapeChar(c);
    ReplaceAllSingle(c, '&', "&amp;");
    var amp := ReplaceAll([c], '&', "&amp;");
    assert c != '&' ==> amp == [c];
    if c == '&' {
      assert '<' !in amp && '>' !in amp && '"' !in amp && '\'' !in amp;
    } else {
      ReplaceAllSingle(c, '<', "&lt;");
      var lt := ReplaceAll(amp, '<', "&lt;");
      if c == '<' {
        assert '>' !in lt && '"' !in lt && '\'' !in lt;
      } else {
        ReplaceAllSingle(c, '>', "&gt;");
        var gt := ReplaceAll(lt, '>', "&gt;");
        if c == '>' {
          assert '"' !in gt && '\'' !in gt;
        } else {
          ReplaceAllSingle(c, '"', "&quot;");
          ReplaceAllSingle(c, '\'', "&#39;");
          var quot := ReplaceAll(gt, '"', "&quot;");
          if c == '"' {
            assert '\'' !in quot;
          }
        }
      }
    }
  }

  /** Because `&` is replaced before any entity is produced, the chain of replacements is
      the same as escaping each character on its own: no entity is escaped a second time. */
  lemma {:induction false} EscapeHtmlIsPerCharacter(s: string)
    ensures EscapeHtml(s) == EscapeEach(s)
  {
    if s != [] {
      assert s == [s[0]] + s[1..];
      EscapeHtmlAppend([s[0]], s[1..]);
      EscapeHtmlChar(s[0]);
      EscapeHtmlIsPerCharacter(s[1..]);
    }
  }

  lemma UnescapeAmp(rest: string)
    ensures Unescape("&amp;" + rest) == "&" + Unescape(rest)
  {
    var t := "&amp;" + rest;
    assert t[..5] == "&amp;" && t[5..] == rest;
  }

  lemma UnescapeLt(rest: string)
    ensures Unescape("&lt;" + rest) == "<" + Unescape(rest)
  {
    var t := "&lt;" + rest;
    assert t[1] == 'l' && t[..4] == "&lt;" && t[4..] == rest;
  }

  lemma UnescapeGt(rest: string)
    ensures Unescape("&gt;" + rest) == ">" + Unescape(rest)
  {
    var t := "&gt;" + rest;
    assert t[1] == 'g' && t[..4] == "&gt;" && t[4..] == rest;
  }

  lemma UnescapeQuot(rest: string)
    ensures Unescape("&quot;" + rest) == "\"" + Unescape(rest)
  {
    var t := "&quot;" + rest;
    assert t[1] == 'q' && t[..6] == "&quot;" && t[6..] == rest;
  }

  lemma UnescapeApos(rest: string)
    ensures Unescape("&#39;" + rest) == "'" + Unescape(rest)
  {
    var t := "&#39;" + rest;
    assert t[1] == '#' && t[..5] == "&#39;" && t[5..] == rest;
  }

  lemma UnescapePlain(c: char, rest: string)
    requires c != '&'
    ensures Unescape([c] + rest) == [c] + Unescape(rest)
  {
    var t := [c] + rest;
    assert t[0] == c && t[1..] == rest;
  }

  lemma UnescapeEntity(c: char, rest: string)
    ensures Unescape(EscapeChar(c) + rest) == [c] + Unescape(rest)
  {
    match c
    case '&' => UnescapeAmp(rest);
    case '<' => UnescapeLt(rest);
    case '>' => UnescapeGt(rest);
    case '"' => UnescapeQuot(rest);
    case '\'' => UnescapeApos(rest);
    case _ => UnescapePlain(c, rest);
  }

  lemma {:induction false} UnescapeEscapeEach(s: string)
    ensures Unescape(EscapeEach(s)) == s
  {
    if s != [] {
      UnescapeEntity(s[0], EscapeEach(s[1..]));
      UnescapeEscapeEach(s[1..]);
      assert s == [s[0]] + s[1..];
    }
  }

  lemma {:induction false} EscapeEachNoMarkup(s: string)
    ensures var r := EscapeEach(s); '<' !in r && '>' !in r && '"' !in r && '\'' !in r
  {
    if s != [] {
      EscapeEachNoMarkup(s[1..]);
      var e := EscapeChar(s[0]);
      assert '<' !in e && '>' !in e && '"' !in e && '\'' !in e;
    }
  }

  /** The escaped text holds no markup delimiter and no quote. */
  lemma EscapeHtmlNoMarkup(s: string)
    ensures var r := EscapeHtml(s); '<' !in r && '>' !in r && '"' !in r && '\'' !in r
  {
    EscapeHtmlIsPerCharacter(s);
    EscapeEachNoMarkup(s);
  }

  /** Text without any of the five special characters comes back unchanged. */
  lemma EscapeHtmlPlainText(s: string)
    requires forall i :: 0 <= i < |s| ==> !IsHtmlSpecial(s[i])
    ensures EscapeHtml(s) == s
  {
    assert '&' !in s && '<' !in s && '>' !in s && '"' !in s && '\'' !in s;
  }

  /** Decoding the escaped text gives the original text back. */
  lemma EscapeHtmlRoundTrip(s: string)
    ensures Unescape(EscapeHtml(s)) == s
  {
    EscapeHtmlIsPerCharacter(s);
    UnescapeEscapeEach(s);
  }

  // ---------------------------------------------------------------- calcGrade

  /** A score as `calcGrade` sees it: null or undefined, the empty string, a value
      `Number()` turns into a number, or one it turns into NaN. */
  datatype Score = Nullish | EmptyText | Numeric(value: real) | NotANumber

  /** Rank of a grade, higher is better; "N/A" has none. */
  function Rank(g: string): int {
    if g == "A" then 4 else if g == "B" then 3 else if g == "C" then 2
    else if g == "D" then 1 else if g == "F" then 0 else -1
  }

  /** The threshold chain on the average. */
  function GradeFor(avg: real): (g: string)
    ensures g in {"A", "B", "C", "D", "F"}
    ensures g == "A" <==> 90.0 <= avg
    ensures g == "B" <==> 80.0 <= avg < 90.0
    ensures g == "C" <==> 70.0 <= avg < 80.0
    ensures g == "D" <==> 60.0 <= avg < 70.0
    ensures g == "F" <==> avg < 60.0
  {
    if avg >= 90.0 then "A"
    else if avg >= 80.0 then "B"
    else if avg >= 70.0 then "C"
    else if avg >= 60.0 then "D"
    else "F"
  }

  function CalcGrade(mid: Score, fin: Score): (g: string)
    ensures g == "N/A" <==> !(mid.Numeric? && fin.Numeric?)
    ensures mid.Numeric? && fin.Numeric? ==> GradeFor((mid.value + fin.value) / 2.0) == g
  {
    if mid.Nullish? || fin.Nullish? || mid.EmptyText? || fin.EmptyText? then "N/A"
    else if mid.NotANumber? || fin.NotANumber? then "N/A"
    else GradeFor((mid.value + fin.value) / 2.0)
  }

  /** A higher average never yields a worse grade. */
  lemma GradeMonotone(lo: real, hi: real)
    requires lo <= hi
    ensures Rank(GradeFor(lo)) <= Rank(GradeFor(hi))
  {
  }

  /** Raising either score never lowers the grade. */
  lemma CalcGradeMonotone(m1: real, f1: real, m2: real, f2: real)
    requires m1 <= m2 && f1 <= f2
    ensures 0 <= Rank(CalcGrade(Numeric(m1), Numeric(f1))) <= Rank(CalcGrade(Numeric(m2), Numeric(f2)))
  {
    GradeMonotone((m1 + f1) / 2.0, (m2 + f2) / 2.0);
  }

  // ---------------------------------------------------------------- form validation

  /** `String.prototype.trim` whitespace: WhiteSpace and LineTerminator code points. */
  predicate IsWhitespace(c: char) {
    var n := c as int;
    n == 0x09 || n == 0x0A || n == 0x0B || n == 0x0C || n == 0x0D || n == 0x20
    || n == 0xA0 || n == 0x1680 || (0x2000 <= n <= 0x200A) || n == 0x2028
    || n == 0x2029 || n == 0x202F || n == 0x205F || n == 0x3000 || n == 0xFEFF
  }

  function TrimStart(s: string): (r: string)
    ensures |r| <= |s| && r == s[|s| - |r|..]
    ensures forall i :: 0 <= i < |s| - |r| ==> IsWhitespace(s[i])
    ensures r == [] || !IsWhitespace(r[0])
  {
    if s != [] && IsWhitespace(s[0]) then TrimStart(s[1..]) else s
  }

  function TrimEnd(s: string): (r: string)
    ensures |r| <= |s| && r == s[..|r|]
    ensures forall i :: |r| <= i < |s| ==> IsWhitespace(s[i])
    ensures r == [] || !IsWhitespace(r[|r| - 1])
  {
    if s != [] && IsWhitespace(s[|s| - 1]) then TrimEnd(s[..|s| - 1]) else s
  }

  /** Both ends stripped; nothing is left exactly when the text is all whitespace. */
  predicate AllWhitespace(s: string) {
    forall i :: 0 <= i < |s| ==> IsWhitespace(s[i])
  }

  /** Both ends stripped: the result is a slice of the input with only whitespace around it,
      it is empty exactly when the input is all whitespace, and otherwise it neither starts
      nor ends with whitespace. */
  function Trim(s: string): (r: string)
    ensures exists a, b ::
              && 0 <= a <= b <= |s| && r == s[a..b]
              && (forall i :: 0 <= i < a ==> IsWhitespace(s[i]))
              && (forall i :: b <= i < |s| ==> IsWhitespace(s[i]))
    ensures r == [] <==> AllWhitespace(s)
    ensures r == [] || (!IsWhitespace(r[0]) && !IsWhitespace(r[|r| - 1]))
  {
    var front := TrimStart(s);
    var r := TrimEnd(front);
    var a := |s| - |front|;
    assert s[a..a + |r|] == front[..|r|];
    forall i | a + |r| <= i < |s| ensures IsWhitespace(s[i]) {
      assert s[i] == front[i - a];
    }
    assert r == [] ==> AllWhitespace(s) by {
      if r == [] {
        assert front == [];
      }
    }
    r
  }

  /** The raw text of the five inputs; None when the element is missing from the page. */
  datatype FormInputs = FormInputs(
    name: Option<string>,
    age: Option<string>,
    gender: Option<string>,
    midterm: Option<string>,
    final: Option<string>)

  /** What `Number(text)` gives, modelled exactly for a run of decimal digits. */
  datatype NumberValue = Whole(n: nat) | OtherNumber(text: string)

  /** The object the submit handler builds before it checks anything. */
  datatype Payload = Payload(
    name: string,
    age: Option<NumberValue>,
    gender: string,
    midterm: Option<NumberValue>,
    final: Option<NumberValue>)

  predicate IsDigit(c: char) {
    '0' as int <= c as int <= '9' as int
  }

  function DigitsValue(s: string): nat
    requires forall i :: 0 <= i < |s| ==> IsDigit(s[i])
  {
    if s == [] then 0
    else
      assert IsDigit(s[|s| - 1]);
      DigitsValue(s[..|s| - 1]) * 10 + (s[|s| - 1] as int - '0' as int)
  }

  function ToNumber(text: string): NumberValue {
    if text != [] && forall i :: 0 <= i < |text| ==> IsDigit(text[i])
    then Whole(DigitsValue(text)) else OtherNumber(text)
  }

  /** `input?.value ? Number(input.value) : null`: only a missing element or empty text is null. */
  function NumberField(input: Option<string>): (r: Option<NumberValue>)
    ensures r.None? <==> (input.None? || input.value == "")
  {
    if input.Some? && input.value != "" then Some(ToNumber(input.value)) else None
  }

  function BuildPayload(inputs: FormInputs): (p: Payload)
    ensures Present(p, Name) <==> inputs.name.Some? && !AllWhitespace(inputs.name.value)
    ensures Present(p, Age) <==> inputs.age.Some? && inputs.age.value != ""
    ensures Present(p, Gender) <==> inputs.gender.Some? && inputs.gender.value != ""
    ensures Present(p, Midterm) <==> inputs.midterm.Some? && inputs.midterm.value != ""
    ensures Present(p, Final) <==> inputs.final.Some? && inputs.final.value != ""
  {
    Payload(
      if inputs.name.Some? then Trim(inputs.name.value) else "",
      NumberField(inputs.age),
      if inputs.gender.Some? then inputs.gender.value else "",
      NumberField(inputs.midterm),
      NumberField(inputs.final))
  }

  datatype FormField = Name | Age | Gender | Midterm | Final

  /** The position of a field in the order the checks run. */
  function Position(f: FormField): nat {
    match f
    case Name => 0
    case Age => 1
    case Gender => 2
    case Midterm => 3
    case Final => 4
  }

  /** The alert shown for the reported field. */
  function Message(f: FormField): string {
    match f
    case Name => "Name is required"
    case Age => "Age is required"
    case Gender => "Gender is required"
    case Midterm => "Midterm is required"
    case Final => "Final is required"
  }

  /** Each field has its own alert text, so the alert names the field that was reported. */
  lemma MessageNamesField(f: FormField, g: FormField)
    ensures Message(f) == Message(g) <==> f == g
  {
    if f != g {
      assert Message(f)[0] != Message(g)[0];
    }
  }

  predicate Present(p: Payload, f: FormField) {
    match f
    case Name => p.name != ""
    case Age => p.age.Some?
    case Gender => p.gender != ""
    case Midterm => p.midterm.Some?
    case Final => p.final.Some?
  }

  datatype Check = Submit | Reject(field: FormField)

  /** The early-return checks: the first missing field in the fixed order, or submit. */
  function Validate(p: Payload): (r: Check)
    ensures r.Submit? <==> forall f :: Present(p, f)
    ensures r.Reject? ==>
      !Present(p, r.field) && forall f :: Position(f) < Position(r.field) ==> Present(p, f)
  {
    if p.name == "" then assert !Present(p, Name); Reject(Name)
    else if p.age.None? then assert !Present(p, Age); Reject(Age)
    else if p.gender == "" then assert !Present(p, Gender); Reject(Gender)
    else if p.midterm.None? then assert !Present(p, Midterm); Reject(Midterm)
    else if p.final.None? then assert !Present(p, Final); Reject(Final)
    else Submit
  }

  /** A name made only of whitespace is trimmed to nothing and is the field reported. */
  lemma WhitespaceNameRejected(inputs: FormInputs)
    requires inputs.name.Some?
    requires AllWhitespace(inputs.name.value)
    ensures Validate(BuildPayload(inputs)) == Reject(Name)
  {
  }

  /** "0" typed into a number input becomes 0 and passes that field's check. */
  lemma ZeroIsPresent(inputs: FormInputs)
    requires inputs.age == Some("0") && inputs.midterm == Some("0") && inputs.final == Some("0")
    ensures var p := BuildPayload(inputs);
      && p.age == Some(Whole(0)) && p.midterm == Some(Whole(0)) && p.final == Some(Whole(0))
      && Present(p, Age) && Present(p, Midterm) && Present(p, Final)
  {
    assert DigitsValue("0") == 0 by {
      assert "0"[..0] == "";
    }
  }
}
