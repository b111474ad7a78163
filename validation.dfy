/** The favorites migrator's validation module: field checks (email,
    password, numbers, required inputs), the upload checks, the FreshRSS
    structure check, the migration settings check and input sanitising.
    Field error display is reduced to the message each check shows. */
module Validation {
  import opened Wrappers
  import opened Strings

  /** What a field check leaves on its input: no error, or a message. */
  datatype FieldCheck = Passed | FieldError(message: string)

  /** `{ success, message }`. */
  datatype Check = Check(success: bool, message: string)

  /* ---------- the email pattern ---------- */

  /** A character of `[^\s@]`. */
  predicate EmailChar(c: char) {
    c != '@' && !IsWhitespace(c)
  }

  /** The strings `/^[^\s@]+@[^\s@]+\.[^\s@]+$/` matches: an `@` at `i`
      and a `.` at `j` with at least one character before the `@`, between
      them and after the dot, and every other character in `[^\s@]`. */
  predicate EmailPattern(e: string) {
    exists i, j :: 0 < i && i + 1 < j && j + 1 < |e| && e[i] == '@' && e[j] == '.' &&
      forall k :: 0 <= k < |e| && k != i ==> EmailChar(e[k])
  }

  /** A `.` with something on both sides. */
  predicate InnerDot(d: string) {
    exists j :: 0 < j < |d| - 1 && d[j] == '.'
  }

  lemma {:induction false} CountZero(s: string, c: char)
    ensures Count(s, c) == 0 <==> c !in s
  {
    if s != [] {
      CountZero(s[1..], c);
      assert s == [s[0]] + s[1..];
    }
  }

  /** With `c` at `i`, `c` occurs once exactly when it occurs nowhere else. */
  lemma {:induction false} CountOne(s: string, c: char, i: nat)
    requires i < |s| && s[i] == c
    ensures Count(s, c) == 1 <==> forall k :: 0 <= k < |s| && k != i ==> s[k] != c
  {
    CountZero(s[1..], c);
    if i == 0 {
      assert forall k :: 1 <= k < |s| ==> s[k] == s[1..][k - 1];
    } else if s[0] == c {
      assert s[1..][i - 1] == c;
    } else {
      CountOne(s[1..], c, i - 1);
      assert forall k :: 1 <= k < |s| ==> s[k] == s[1..][k - 1];
    }
  }

  /** The pattern accepts exactly the strings with one `@`, no whitespace,
      something before the `@`, and a dot inside the part after it. */
  lemma EmailPatternShape(e: string)
    ensures EmailPattern(e) <==>
      (Count(e, '@') == 1 && !HasWhitespace(e) &&
       exists i :: 0 < i < |e| && e[i] == '@' && InnerDot(e[i + 1..]))
  {
    if EmailPattern(e) {
      var i, j :| 0 < i && i + 1 < j && j + 1 < |e| && e[i] == '@' && e[j] == '.' &&
        forall k :: 0 <= k < |e| && k != i ==> EmailChar(e[k]);
      CountOne(e, '@', i);
      assert e[i + 1..][j - i - 1] == '.';
      assert !IsWhitespace(e[i]);
    }
    if Count(e, '@') == 1 && !HasWhitespace(e) && exists i :: 0 < i < |e| && e[i] == '@' && InnerDot(e[i + 1..]) {
      var i :| 0 < i < |e| && e[i] == '@' && InnerDot(e[i + 1..]);
      var d := e[i + 1..];
      var j :| 0 < j < |d| - 1 && d[j] == '.';
      CountOne(e, '@', i);
      assert e[i + 1 + j] == '.';
      assert forall k :: 0 <= k < |e| && k != i ==> EmailChar(e[k]);
    }
  }

  const EmailRequiredMessage := "Email required"
  const EmailMessage := "Please enter a valid email address"
  const PasswordMessage := "Password is required"
  const RequiredMessage := "This field is required"

  /** `validateEmail(input)` on the field's raw value. */
  function ValidateEmail(value: string): (r: FieldCheck)
    ensures r == FieldError(EmailRequiredMessage) <==> Trim(value) == []
    ensures r == Passed <==> Trim(value) != [] && EmailPattern(Trim(value))
  {
    var email := Trim(value);
    if email == [] then FieldError(EmailRequiredMessage)
    else if !EmailPattern(email) then FieldError(EmailMessage)
    else Passed
  }

  /** `validatePassword(input)`: any non-empty password passes (the length
      check after the emptiness check can never fail). */
  function ValidatePassword(password: string): (r: FieldCheck)
    ensures r == Passed <==> password != []
    ensures r != Passed ==> r == FieldError(PasswordMessage)
  {
    if password == [] then FieldError(PasswordMessage)
    else if |password| < 1 then FieldError(PasswordMessage)
    else Passed
  }

  /* ---------- validateFile ---------- */

  const MaxFileSize := 50 * 1024 * 1024

  /** `validateFile(file)`: the type first, then the size. */
  function ValidateFile(mimeType: string, size: int): (r: Check)
    ensures r.success <==> mimeType == "application/json" && size <= 52428800
    ensures mimeType != "application/json" ==> r.message == "Please select a JSON file exported from FreshRSS"
    ensures mimeType == "application/json" && size > 52428800 ==> r.message == "File too large (max 50MB)"
  {
    if mimeType !in ["application/json"] then Check(false, "Please select a JSON file exported from FreshRSS")
    else if size > MaxFileSize then Check(false, "File too large (max 50MB)")
    else Check(true, "File is valid")
  }

  /* ---------- validateFreshRSSData ---------- */

  /** An item of the export as far as the check reads it. */
  datatype RawItem = RawItem(title: Option<string>, published: Option<int>)

  /** The parsed file: not an object (falsy or not of type object), or an
      object whose `items` is an array or not (`None`). */
  datatype Data = NotAnObject | Object(items: Option<seq<RawItem>>)

  /** Both fields truthy: a non-empty title and a non-zero date. */
  predicate Complete(item: RawItem) {
    item.title.Some? && item.title.value != [] && item.published.Some? && item.published.value != 0
  }

  const SampleSize := 5
  const NotObjectMessage := "Invalid file format: not a valid JSON object"
  const MissingItemsMessage := "Invalid FreshRSS file format: missing items array"
  const NoItemsMessage := "FreshRSS file contains no items to migrate"
  const IncompleteMessage := "Invalid FreshRSS file format: items must have title and published fields"
  const DataValidMessage := "FreshRSS data is valid"

  /** `validateFreshRSSData(data)`: structure first, then the first five
      items only. */
  method ValidateFreshRssData(data: Data) returns (r: Check)
    ensures data.NotAnObject? ==> r == Check(false, NotObjectMessage)
    ensures data.Object? && data.items.None? ==> r == Check(false, MissingItemsMessage)
    ensures data.Object? && data.items == Some([]) ==> r == Check(false, NoItemsMessage)
    ensures data.Object? && data.items.Some? && data.items.value != [] ==>
      (r.success <==> forall k :: 0 <= k < |data.items.value| && k < SampleSize ==> Complete(data.items.value[k]))
    ensures r.success ==> r.message == DataValidMessage
  {
    if data.NotAnObject? {
      return Check(false, NotObjectMessage);
    }
    if data.items.None? {
      return Check(false, MissingItemsMessage);
    }
    var items := data.items.value;
    if |items| == 0 {
      return Check(false, NoItemsMessage);
    }
    var sampleItems := if |items| < SampleSize then items else items[..SampleSize];
    var i := 0;
    while i < |sampleItems|
      invariant 0 <= i <= |sampleItems|
      invariant forall k :: 0 <= k < i ==> Complete(items[k])
    {
      assert sampleItems[i] == items[i];
      if !Complete(sampleItems[i]) {
        return Check(false, IncompleteMessage);
      }
      i := i + 1;
    }
    r := Check(true, DataValidMessage);
  }

  /* ---------- validateForm ---------- */

  /** A form control: its `type` attribute, value and `required` flag. */
  datatype Input = Input(kind: string, value: string, required: bool)

  /** What `validateForm` does with one control: `None` for a file input,
      which it skips. */
  function InputCheck(input: Input): Option<FieldCheck> {
    var inputType := if input.kind == [] then "text" else input.kind;
    if inputType == "email" then Some(ValidateEmail(input.value))
    else if inputType == "password" then Some(ValidatePassword(input.value))
    else if inputType == "file" then None
    else if input.required && Trim(input.value) == [] then Some(FieldError(RequiredMessage))
    else Some(Passed)
  }

  /** Email and password controls get their own checks, file controls are
      skipped, and any other control fails only when it is required and
      blank. */
  lemma InputCheckCases(input: Input)
    ensures InputCheck(input).None? <==> input.kind == "file"
    ensures input.kind == "email" ==> InputCheck(input) == Some(ValidateEmail(input.value))
    ensures input.kind == "password" ==> InputCheck(input) == Some(ValidatePassword(input.value))
    ensures input.kind !in ["email", "password", "file"] ==>
      (Fails(InputCheck(input)) <==> input.required && Trim(input.value) == [])
  {
  }

  /** A control fails when its check shows an error. */
  predicate Fails(mark: Option<FieldCheck>) {
    mark.Some? && mark.value.FieldError?
  }

  /** `validateForm(form)`: every control is checked (`marks` is what each
      shows), and the form is valid when none of them failed. */
  method ValidateForm(inputs: seq<Input>) returns (isValid: bool, marks: seq<Option<FieldCheck>>)
    ensures |marks| == |inputs| && forall k :: 0 <= k < |inputs| ==> marks[k] == InputCheck(inputs[k])
    ensures isValid <==> forall k :: 0 <= k < |inputs| ==> !Fails(marks[k])
  {
    isValid := true;
    marks := [];
    var i := 0;
    while i < |inputs|
      invariant 0 <= i <= |inputs|
      invariant |marks| == i && forall k :: 0 <= k < i ==> marks[k] == InputCheck(inputs[k])
      invariant isValid <==> forall k :: 0 <= k < i ==> !Fails(marks[k])
    {
      var mark := InputCheck(inputs[i]);
      MarksStep(inputs, marks, mark);
      if Fails(mark) {
        isValid := false;
      }
      marks := marks + [mark];
      i := i + 1;
    }
  }

  /** One more mark keeps the marks in step with the inputs, and the form
      stays valid exactly when the new mark does not fail. */
  lemma MarksStep(inputs: seq<Input>, marks: seq<Option<FieldCheck>>, mark: Option<FieldCheck>)
    requires |marks| < |inputs| && mark == InputCheck(inputs[|marks|])
    requires forall k :: 0 <= k < |marks| ==> marks[k] == InputCheck(inputs[k])
    ensures forall k :: 0 <= k <= |marks| ==> (marks + [mark])[k] == InputCheck(inputs[k])
    ensures (forall k :: 0 <= k <= |marks| ==> !Fails((marks + [mark])[k]))
        <==> (forall k :: 0 <= k < |marks| ==> !Fails(marks[k])) && !Fails(mark)
  {
    var next := marks + [mark];
    assert forall k :: 0 <= k < |marks| ==> next[k] == marks[k];
    assert next[|marks|] == mark;
  }

  /* ---------- validateMigrationConfig ---------- */

  /** A configuration value as JavaScript sees it: not of type number, a
      finite number, NaN, or an infinity. */
  datatype JsValue = NotNumber | Finite(x: real) | NaN | Infinity(negative: bool)

  /** `typeof v !== 'number' || v < lo || v > hi`, with JavaScript's
      comparisons (every comparison with NaN is false). */
  predicate OutOfRangeAsWritten(v: JsValue, lo: real, hi: real) {
    match v
    case NotNumber => true
    case Finite(x) => x < lo || x > hi
    case NaN => false
    case Infinity(_) => true
  }

  datatype MigrationConfig = MigrationConfig(retryAttempts: JsValue, batchSize: JsValue, delayBetweenBatches: JsValue)

  const RetryMessage := "Retry attempts must be between 1 and 10"
  const BatchMessage := "Batch size must be between 10 and 1000"
  const DelayMessage := "Delay between batches must be between 0 and 10000ms"

  /** The messages whose flag is set, in table order. */
  function Flagged(messages: seq<string>, flags: seq<bool>): (r: seq<string>)
    requires |messages| == |flags|
    ensures |r| <= |messages|
    ensures forall m :: m in r ==> m in messages
  {
    if messages == [] then []
    else (if flags[0] then [messages[0]] else []) + Flagged(messages[1..], flags[1..])
  }

  lemma FlaggedThree(m1: string, m2: string, m3: string, b1: bool, b2: bool, b3: bool)
    ensures Flagged([m1, m2, m3], [b1, b2, b3]) ==
      (if b1 then [m1] else []) + (if b2 then [m2] else []) + (if b3 then [m3] else [])
  {
    assert [m1, m2, m3][1..] == [m2, m3] && [b1, b2, b3][1..] == [b2, b3];
    assert [m2, m3][1..] == [m3] && [b2, b3][1..] == [b3];
    assert Flagged([m3], [b3]) == (if b3 then [m3] else []) + Flagged([], []);
  }

  /** `validateMigrationConfig(config)` as written: NaN passes every check. */
  method ValidateMigrationConfigAsWritten(config: MigrationConfig) returns (success: bool, errors: seq<string>)
    ensures errors == Flagged([RetryMessage, BatchMessage, DelayMessage],
      [OutOfRangeAsWritten(config.retryAttempts, 1.0, 10.0), OutOfRangeAsWritten(config.batchSize, 10.0, 1000.0),
       OutOfRangeAsWritten(config.delayBetweenBatches, 0.0, 10000.0)])
    ensures success <==> errors == []
  {
    FlaggedThree(RetryMessage, BatchMessage, DelayMessage, OutOfRangeAsWritten(config.retryAttempts, 1.0, 10.0),
      OutOfRangeAsWritten(config.batchSize, 10.0, 1000.0), OutOfRangeAsWritten(config.delayBetweenBatches, 0.0, 10000.0));
    errors := [];
    if OutOfRangeAsWritten(config.retryAttempts, 1.0, 10.0) {
      errors := errors + [RetryMessage];
    }
    if OutOfRangeAsWritten(config.batchSize, 10.0, 1000.0) {
      errors := errors + [BatchMessage];
    }
    if OutOfRangeAsWritten(config.delayBetweenBatches, 0.0, 10000.0) {
      errors := errors + [DelayMessage];
    }
    success := |errors| == 0;
  }

  /** A configuration of three NaNs is accepted as written. */
  lemma NaNConfigAccepted()
    ensures Flagged([RetryMessage, BatchMessage, DelayMessage],
      [OutOfRangeAsWritten(NaN, 1.0, 10.0), OutOfRangeAsWritten(NaN, 10.0, 1000.0),
       OutOfRangeAsWritten(NaN, 0.0, 10000.0)]) == []
  {
    FlaggedThree(RetryMessage, BatchMessage, DelayMessage, false, false, false);
  }

  /** The intended range check: a finite number within inclusive bounds. */
  predicate InRange(v: JsValue, lo: real, hi: real) {
    v.Finite? && lo <= v.x <= hi
  }

  /** `validateMigrationConfig(config)` with NaN refused like any other
      value outside the range. */
  method ValidateMigrationConfig(config: MigrationConfig) returns (success: bool, errors: seq<string>)
    ensures errors == Flagged([RetryMessage, BatchMessage, DelayMessage],
      [!InRange(config.retryAttempts, 1.0, 10.0), !InRange(config.batchSize, 10.0, 1000.0),
       !InRange(config.delayBetweenBatches, 0.0, 10000.0)])
    ensures success <==> errors == []
    ensures success <==> InRange(config.retryAttempts, 1.0, 10.0) && InRange(config.batchSize, 10.0, 1000.0) &&
                         InRange(config.delayBetweenBatches, 0.0, 10000.0)
  {
    FlaggedThree(RetryMessage, BatchMessage, DelayMessage, !InRange(config.retryAttempts, 1.0, 10.0),
      !InRange(config.batchSize, 10.0, 1000.0), !InRange(config.delayBetweenBatches, 0.0, 10000.0));
    errors := [];
    if !InRange(config.retryAttempts, 1.0, 10.0) {
      errors := errors + [RetryMessage];
    }
    if !InRange(config.batchSize, 10.0, 1000.0) {
      errors := errors + [BatchMessage];
    }
    if !InRange(config.delayBetweenBatches, 0.0, 10000.0) {
      errors := errors + [DelayMessage];
    }
    success := |errors| == 0;
  }

  /** As written, a check fails exactly on out-of-range values other than
      NaN: the two versions differ only on NaN. */
  lemma AsWrittenDiffersOnlyOnNaN(v: JsValue, lo: real, hi: real)
    requires lo <= hi
    ensures OutOfRangeAsWritten(v, lo, hi) == (!InRange(v, lo, hi) && v != NaN)
  {
  }

  /* ---------- sanitizeInput ---------- */

  /** The replacements of `sanitizeInput` after the trim, in order: `<` and
      `>` removed, then `&`, `"` and `'` escaped. */
  const SanitizePairs: seq<(char, string)> :=
    [('<', ""), ('>', ""), ('&', "&amp;"), ('"', "&quot;"), ('\'', "&#39;")]

  lemma SanitizeNoReintroduction()
    ensures NoReintroduction(SanitizePairs)
  {
    var e := SanitizePairs;
    assert e[0].1 == "" && e[1].1 == "" && e[2].1 == "&amp;" && e[3].1 == "&quot;" && e[4].1 == "&#39;";
    assert e[1].0 == '>' && e[2].0 == '&' && e[3].0 == '"' && e[4].0 == '\'';
  }

  /** What one character becomes. */
  function SanitizeChar(c: char): (r: string)
    ensures '<' !in r && '>' !in r && '"' !in r && '\'' !in r
    ensures forall k :: 1 <= k < |r| ==> r[k] != '&'
  {
    match c
    case '<' => ""
    case '>' => ""
    case '&' => "&amp;"
    case '"' => "&quot;"
    case '\'' => "&#39;"
    case _ => [c]
  }

  lemma EntityFromIsSanitizeChar(c: char)
    ensures EntityFrom(SanitizePairs, 0, c) == SanitizeChar(c)
  {
    var e := SanitizePairs;
    assert e[0] == ('<', "") && e[1] == ('>', "") && e[2] == ('&', "&amp;");
    assert e[3] == ('"', "&quot;") && e[4] == ('\'', "&#39;") && |e| == 5;
    if c != '&' && c != '<' && c != '>' && c != '"' && c != '\'' {
      assert EntityFrom(e, 4, c) == EntityFrom(e, 5, c) == [c];
    }
  }

  /** Reference definition: each character mapped on its own. */
  function SanitizeEach(s: string): string {
    if s == [] then [] else SanitizeChar(s[0]) + SanitizeEach(s[1..])
  }

  lemma {:induction false} EscapeWithSanitize(s: string)
    ensures EscapeWith(s, SanitizePairs) == SanitizeEach(s)
  {
    if s != [] {
      EscapeWithSanitize(s[1..]);
      EntityFromIsSanitizeChar(s[0]);
    }
  }

  /** A value as `sanitizeInput` receives it. */
  datatype Value = StringValue(s: string) | OtherValue(id: int)

  /** `sanitizeInput(value)`. */
  function SanitizeInput(value: Value): (r: Value)
    ensures value.OtherValue? ==> r == value
    ensures value.StringValue? ==> r == StringValue(SanitizeEach(Trim(value.s)))
  {
    match value
    case OtherValue(_) => value
    case StringValue(s) =>
      SanitizeNoReintroduction();
      ReplaceAllIsEntityMap(Trim(s), SanitizePairs);
      EscapeWithSanitize(Trim(s));
      StringValue(ReplaceFrom(Trim(s), SanitizePairs, 0))
  }

  /** `&amp;`, `&quot;` or `&#39;` starts at `i`. */
  predicate SanitizeEntityAt(s: string, i: nat)
    requires i <= |s|
  {
    StartsWith(s[i..], "&amp;") || StartsWith(s[i..], "&quot;") || StartsWith(s[i..], "&#39;")
  }

  /** No angle bracket or raw quote survives, and every `&` starts one of
      the three entities. */
  lemma {:induction false} SanitizeEachSafe(s: string)
    ensures '<' !in SanitizeEach(s) && '>' !in SanitizeEach(s) && '"' !in SanitizeEach(s) && '\'' !in SanitizeEach(s)
    ensures forall i :: 0 <= i < |SanitizeEach(s)| && SanitizeEach(s)[i] == '&' ==> SanitizeEntityAt(SanitizeEach(s), i)
  {
    if s != [] {
      SanitizeEachSafe(s[1..]);
      var head := SanitizeChar(s[0]);
      var tail := SanitizeEach(s[1..]);
      var r := SanitizeEach(s);
      assert r == head + tail;
      forall i | 0 <= i < |r| && r[i] == '&' ensures SanitizeEntityAt(r, i) {
        if i < |head| {
          assert i == 0 && r[0..] == r;
          assert r[..|head|] == head;
          assert head == "&amp;" || head == "&quot;" || head == "&#39;";
        } else {
          assert r[i..] == tail[i - |head|..];
        }
      }
    }
  }

  lemma {:induction false} SanitizeEachAppend(a: string, b: string)
    ensures SanitizeEach(a + b) == SanitizeEach(a) + SanitizeEach(b)
  {
    if a != [] {
      SanitizeEachAppend(a[1..], b);
      assert (a + b)[1..] == a[1..] + b;
    } else {
      assert a + b == b;
    }
  }

  lemma SanitizeSpaceBracket()
    ensures SanitizeEach(" <") == " "
  {
    var t: string := [' ', '<'];
    assert t[1..] == ['<'] && t[1..][1..] == [];
    assert SanitizeEach(t[1..]) == SanitizeChar('<') + SanitizeEach([]) == [];
    assert SanitizeChar(' ') == [' '];
    assert SanitizeEach(t) == SanitizeChar(' ') + SanitizeEach(t[1..]);
  }

  /** The trim runs before the brackets go, so a sanitised value can still
      end with a space: `a + " <"` comes out as the sanitised `a` and a space. */
  lemma TrimBeforeRemoval(a: string)
    requires a != [] && !IsWhitespace(a[0])
    ensures SanitizeInput(StringValue(a + " <")) == StringValue(SanitizeEach(a) + " ")
  {
    var s := a + " <";
    assert s[0] == a[0] && s[|s| - 1] == '<';
    TrimKeepsInner(s);
    SanitizeEachAppend(a, " <");
    SanitizeSpaceBracket();
  }

  /* ---------- validateNumericInput ---------- */

  /** The outcome of a numeric check. */
  datatype NumericCheck = NumberPassed | NumberRequired | BelowMin(min: real) | AboveMax(max: real)

  /** `validateNumericInput(input, {min, max, required})`; `value` is what
      `parseFloat` gives for `raw` (`None` for NaN). */
  function ValidateNumericInput(raw: string, value: Option<real>, min: Option<real>, max: Option<real>, required: bool): (r: NumericCheck)
    ensures r == NumberRequired <==> required && (value.None? || raw == [])
    ensures r.BelowMin? ==> min.Some? && value.Some? && value.value < min.value
    ensures r.AboveMax? ==> max.Some? && value.Some? && value.value > max.value
    ensures r == NumberPassed <==>
      !(required && (value.None? || raw == [])) &&
      (min.None? || value.None? || value.value >= min.value) &&
      (max.None? || value.None? || value.value <= max.value)
  {
    if required && (value.None? || raw == []) then NumberRequired
    else if min.Some? && value.Some? && value.value < min.value then BelowMin(min.value)
    else if max.Some? && value.Some? && value.value > max.value then AboveMax(max.value)
    else NumberPassed
  }
}
