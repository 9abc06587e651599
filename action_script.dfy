/**
 * The input checks of the browser-automation client that drives the game:
 * bounded integers and booleans from the command line, the action-file
 * payload, the list of steps it holds, and the console-error buffer that
 * reports each distinct error once.
 */
module ActionScript {
  import opened Types

  const MAX_ITERATIONS: int := 20
  const MAX_STEPS: int := 500
  const MAX_FRAMES_PER_STEP: int := 600
  const MAX_TOTAL_FRAMES: int := 24000

  /** `Number.MAX_SAFE_INTEGER`, 2^53 - 1. */
  const MAX_SAFE_INTEGER: int := 0x1F_FFFF_FFFF_FFFF

  /** The button names a step may hold: the keyboard names and the two mouse
      buttons. */
  const ALLOWED_BUTTONS: set<string> :=
    {"up", "down", "left", "right", "enter", "space", "a", "b", "r", "left_mouse_button", "right_mouse_button"}

  /** A value `JSON.parse` can produce. A number literal too large for a
      double parses to an infinity, kept apart from the finite numbers. */
  datatype Json =
    | JNull
    | JBool(b: bool)
    | JNum(v: real)
    | JInfinite(negative: bool)
    | JStr(s: string)
    | JArr(items: seq<Json>)
    | JObj(fields: map<string, Json>)

  /** The reasons the client refuses its input, one per thrown message. */
  datatype ActionError =
    | NotAnInteger(field: FieldName)
    | OutOfRange(field: FieldName, min: int, max: int)
    | NotABoolean(field: FieldName)
    | BadPayload
    | NoSteps
    | TooManySteps
    | StepNotObject(index: nat)
    | ButtonsNotArray(index: nat)
    | UnsupportedButton(index: nat, button: Json)
    | MouseXNotFinite(index: nat)
    | MouseYNotFinite(index: nat)
    | FrameBudgetExceeded

  /** The value an error message names: a command-line option, or the
      `frames` member of step `index` (written `steps[index].frames`). */
  datatype FieldName = OptionName(name: string) | StepFramesField(index: nat)

  datatype Result<T> = Ok(value: T) | Err(error: ActionError)

  // ---------------------------------------------------------------------
  // Trimming

  /** The characters `String.prototype.trim` removes: white space and line
      terminators. */
  predicate IsJsWhitespace(c: char) {
    || c == '\t' || c == '\n' || c == '\U{000B}' || c == '\U{000C}' || c == '\r' || c == ' '
    || c == '\U{00A0}' || c == '\U{1680}' || ('\U{2000}' <= c <= '\U{200A}')
    || c == '\U{2028}' || c == '\U{2029}' || c == '\U{202F}' || c == '\U{205F}'
    || c == '\U{3000}' || c == '\U{FEFF}'
  }

  predicate AllWhitespace(s: string) {
    forall i :: 0 <= i < |s| ==> IsJsWhitespace(s[i])
  }

  /** `s` without its longest all-whitespace prefix. */
  function TrimStart(s: string): (r: string)
    ensures |r| <= |s| && r == s[|s| - |r|..]
    ensures r == [] || !IsJsWhitespace(r[0])
    ensures AllWhitespace(s[..|s| - |r|])
  {
    if s != [] && IsJsWhitespace(s[0]) then
      var r := TrimStart(s[1..]);
      assert s[..|s| - |r|] == [s[0]] + s[1..][..|s| - 1 - |r|];
      r
    else
      s
  }

  /** `s` without its longest all-whitespace suffix. */
  function TrimEnd(s: string): (r: string)
    ensures |r| <= |s| && r == s[..|r|]
    ensures r == [] || !IsJsWhitespace(r[|r| - 1])
    ensures AllWhitespace(s[|r|..])
  {
    if s != [] && IsJsWhitespace(s[|s| - 1]) then
      var r := TrimEnd(s[..|s| - 1]);
      assert s[|r|..] == s[..|s| - 1][|r|..] + [s[|s| - 1]];
      r
    else
      s
  }

  /** `String.prototype.trim`. */
  function Trim(s: string): string {
    TrimEnd(TrimStart(s))
  }

  lemma {:induction false} TrimStartSkips(p: string, t: string)
    requires AllWhitespace(p)
    requires t == [] || !IsJsWhitespace(t[0])
    ensures TrimStart(p + t) == t
  {
    if p != [] {
      assert (p + t)[1..] == p[1..] + t;
      TrimStartSkips(p[1..], t);
    }
  }

  lemma {:induction false} TrimEndSkips(t: string, q: string)
    requires AllWhitespace(q)
    requires t == [] || !IsJsWhitespace(t[|t| - 1])
    ensures TrimEnd(t + q) == t
  {
    if q != [] {
      assert (t + q)[..|t + q| - 1] == t + q[..|q| - 1];
      TrimEndSkips(t, q[..|q| - 1]);
    }
  }

  /** Trimming removes exactly the surrounding white space: a text that
      neither starts nor ends with white space comes back unchanged from
      any padding. */
  lemma TrimPadded(p: string, s: string, q: string)
    requires AllWhitespace(p) && AllWhitespace(q)
    requires s == [] || (!IsJsWhitespace(s[0]) && !IsJsWhitespace(s[|s| - 1]))
    ensures Trim(p + s + q) == s
  {
    assert p + s + q == p + (s + q);
    if s == [] {
      assert AllWhitespace(p + q);
      assert TrimStart(p + q) == [];
    } else {
      TrimStartSkips(p, s + q);
      TrimEndSkips(s, q);
    }
  }

  lemma TrimUnpadded(s: string)
    requires s == [] || (!IsJsWhitespace(s[0]) && !IsJsWhitespace(s[|s| - 1]))
    ensures Trim(s) == s
  {
    assert [] + s == s && s + [] == s;
    TrimStartSkips([], s);
    TrimEndSkips(s, []);
  }

  /** Trimming twice is trimming once. */
  lemma TrimIdempotent(s: string)
    ensures Trim(Trim(s)) == Trim(s)
  {
    var t := Trim(s);
    var u := TrimStart(s);
    assert t == [] || !IsJsWhitespace(t[0]) by {
      if t != [] {
        assert t[0] == u[0];
      }
    }
    TrimPadded([], t, []);
    assert [] + t + [] == t;
  }

  // ---------------------------------------------------------------------
  // Integer text

  predicate IsDigit(c: char) {
    '0' <= c <= '9'
  }

  predicate IsDigits(s: string) {
    |s| > 0 && forall i :: 0 <= i < |s| ==> IsDigit(s[i])
  }

  /** The pattern `^-?\d+$`: an optional minus sign, then one or more ASCII
      digits, and nothing else. */
  predicate IsIntegerText(s: string) {
    if |s| > 0 && s[0] == '-' then IsDigits(s[1..]) else IsDigits(s)
  }

  /** The value of a run of decimal digits (leading zeros allowed). */
  function DigitsValue(s: string): nat
    requires forall i :: 0 <= i < |s| ==> IsDigit(s[i])
  {
    if s == [] then 0 else 10 * DigitsValue(s[..|s| - 1]) + DigitValue(s[|s| - 1])
  }

  function DigitValue(c: char): nat
    requires IsDigit(c)
  {
    (c as int - '0' as int) as nat
  }

  /** What `Number.parseInt(s, 10)` reads from an integer text, before
      rounding to a double. */
  function IntegerTextValue(s: string): int
    requires IsIntegerText(s)
  {
    if s[0] == '-' then 0 - DigitsValue(s[1..]) else DigitsValue(s)
  }

  function DigitChar(d: nat): (c: char)
    requires d < 10
    ensures IsDigit(c) && DigitValue(c) == d
  {
    ('0' as int + d) as char
  }

  /** The decimal text of a natural number. */
  function NatText(n: nat): (s: string)
    ensures IsDigits(s) && DigitsValue(s) == n
  {
    if n < 10 then
      [DigitChar(n)]
    else
      var prefix := NatText(n / 10);
      assert (prefix + [DigitChar(n % 10)])[..|prefix|] == prefix;
      prefix + [DigitChar(n % 10)]
  }

  /** The decimal text JavaScript gives an integer. */
  function IntText(n: int): (s: string)
    ensures IsIntegerText(s) && IntegerTextValue(s) == n
    ensures IsDigit(s[|s| - 1]) && (IsDigit(s[0]) || s[0] == '-')
  {
    if n < 0 then
      var digits := NatText(-n);
      assert ("-" + digits)[1..] == digits;
      "-" + digits
    else
      NatText(n)
  }

  // ---------------------------------------------------------------------
  // Command-line values

  /** `parseBoundedInteger`: the trimmed text must be an integer text, and
      its value a safe integer within [min, max]. */
  function ParseBoundedInteger(raw: string, field: FieldName, min: int, max: int): (r: Result<int>)
    ensures r.Ok? ==>
      && IsIntegerText(Trim(raw)) && r.value == IntegerTextValue(Trim(raw))
      && min <= r.value <= max && -MAX_SAFE_INTEGER <= r.value <= MAX_SAFE_INTEGER
    ensures r == Err(NotAnInteger(field)) <==> !IsIntegerText(Trim(raw))
    ensures r.Err? ==> r.error == NotAnInteger(field) || r.error == OutOfRange(field, min, max)
    ensures IsIntegerText(Trim(raw)) && min <= IntegerTextValue(Trim(raw)) <= max
            && -MAX_SAFE_INTEGER <= IntegerTextValue(Trim(raw)) <= MAX_SAFE_INTEGER ==>
            r == Ok(IntegerTextValue(Trim(raw)))
  {
    var normalized := Trim(raw);
    if !IsIntegerText(normalized) then
      Err(NotAnInteger(field))
    else
      var parsed := IntegerTextValue(normalized);
      if parsed < -MAX_SAFE_INTEGER || parsed > MAX_SAFE_INTEGER || parsed < min || parsed > max then
        Err(OutOfRange(field, min, max))
      else
        Ok(parsed)
  }

  /** Every safe integer in range is read back from its own decimal text,
      whatever white space surrounds it. */
  lemma ParseBoundedIntegerRoundTrip(n: int, p: string, q: string, field: FieldName, min: int, max: int)
    requires AllWhitespace(p) && AllWhitespace(q)
    requires min <= n <= max && -MAX_SAFE_INTEGER <= n <= MAX_SAFE_INTEGER
    ensures ParseBoundedInteger(p + IntText(n) + q, field, min, max) == Ok(n)
  {
    TrimPadded(p, IntText(n), q);
    assert Trim(p + IntText(n) + q) == IntText(n);
  }

  /** A trimmed text holding anything but digits and a leading minus sign is
      refused as "not an integer", before the range is looked at; the empty
      text, "1.5" and "+3" are such texts. */
  lemma ParseBoundedIntegerRejectsNonDigits(raw: string, field: FieldName, min: int, max: int, i: int)
    requires 0 <= i < |Trim(raw)| && !IsDigit(Trim(raw)[i]) && (i > 0 || Trim(raw)[i] != '-')
    ensures ParseBoundedInteger(raw, field, min, max) == Err(NotAnInteger(field))
  {
    var t := Trim(raw);
    if |t| > 0 && t[0] == '-' {
      assert !IsDigit(t[1..][i - 1]);
    }
  }

  /** The empty text is not an integer. */
  lemma ParseBoundedIntegerRejectsEmpty(field: FieldName, min: int, max: int)
    ensures ParseBoundedInteger("", field, min, max) == Err(NotAnInteger(field))
  {
    TrimUnpadded("");
  }

  /** A decimal fraction such as "1.5" is not an integer. */
  lemma ParseBoundedIntegerRejectsDecimal(raw: string, field: FieldName, min: int, max: int)
    requires |raw| == 3 && IsDigit(raw[0]) && raw[1] == '.' && IsDigit(raw[2])
    ensures ParseBoundedInteger(raw, field, min, max) == Err(NotAnInteger(field))
  {
    assert !IsJsWhitespace(raw[0]) && !IsJsWhitespace(raw[2]);
    TrimUnpadded(raw);
    ParseBoundedIntegerRejectsNonDigits(raw, field, min, max, 1);
  }

  /** A plus sign, as in "+3", is not accepted. */
  lemma ParseBoundedIntegerRejectsPlus(raw: string, field: FieldName, min: int, max: int)
    requires |raw| == 2 && raw[0] == '+' && IsDigit(raw[1])
    ensures ParseBoundedInteger(raw, field, min, max) == Err(NotAnInteger(field))
  {
    assert !IsJsWhitespace(raw[0]) && !IsJsWhitespace(raw[1]);
    TrimUnpadded(raw);
    ParseBoundedIntegerRejectsNonDigits(raw, field, min, max, 0);
  }

  function LowerChar(c: char): char {
    if 'A' <= c <= 'Z' then (c as int + 32) as char else c
  }

  /** Lower case for the letters A to Z; no other character lower-cases to
      a letter of "true" or "false". */
  function AsciiLower(s: string): (r: string)
    ensures |r| == |s| && forall i :: 0 <= i < |s| ==> r[i] == LowerChar(s[i])
  {
    if s == [] then [] else [LowerChar(s[0])] + AsciiLower(s[1..])
  }

  /** No letter from A to Z. */
  predicate NoUpper(s: string) {
    s == [] || (!('A' <= s[0] <= 'Z') && NoUpper(s[1..]))
  }

  lemma {:induction false} LowerKeepsLowerCase(s: string)
    requires NoUpper(s)
    ensures AsciiLower(s) == s
  {
    if s != [] {
      LowerKeepsLowerCase(s[1..]);
      assert s == [s[0]] + s[1..];
    }
  }

  /** Lower-casing twice is lower-casing once. */
  lemma LowerIdempotent(s: string)
    ensures AsciiLower(AsciiLower(s)) == AsciiLower(s)
  {
  }

  /** `parseBoolean`: "1" and "true" are true, "0" and "false" are false,
      after trimming and in any letter case. */
  function ParseBoolean(raw: string, field: FieldName): (r: Result<bool>)
    ensures r == Ok(true) <==> AsciiLower(Trim(raw)) in {"1", "true"}
    ensures r == Ok(false) <==> AsciiLower(Trim(raw)) in {"0", "false"}
    ensures r.Err? ==> r.error == NotABoolean(field)
  {
    var normalized := AsciiLower(Trim(raw));
    if normalized == "1" || normalized == "true" then Ok(true)
    else if normalized == "0" || normalized == "false" then Ok(false)
    else Err(NotABoolean(field))
  }

  lemma LowerCharWhitespace(c: char)
    ensures IsJsWhitespace(LowerChar(c)) == IsJsWhitespace(c)
  {
  }

  lemma {:induction false} TrimStartLower(s: string)
    ensures TrimStart(AsciiLower(s)) == AsciiLower(TrimStart(s))
  {
    if s != [] {
      var l := AsciiLower(s);
      LowerCharWhitespace(s[0]);
      assert l[0] == LowerChar(s[0]) && l[1..] == AsciiLower(s[1..]);
      if IsJsWhitespace(s[0]) {
        TrimStartLower(s[1..]);
      }
    }
  }

  lemma {:induction false} TrimEndLower(s: string)
    ensures TrimEnd(AsciiLower(s)) == AsciiLower(TrimEnd(s))
  {
    if s != [] {
      var l := AsciiLower(s);
      LowerCharWhitespace(s[|s| - 1]);
      assert l[..|s| - 1] == AsciiLower(s[..|s| - 1]);
      if IsJsWhitespace(s[|s| - 1]) {
        TrimEndLower(s[..|s| - 1]);
      }
    }
  }

  /** Letter case makes no difference to `parseBoolean`. */
  lemma ParseBooleanIgnoresCase(raw: string, field: FieldName)
    ensures ParseBoolean(AsciiLower(raw), field) == ParseBoolean(raw, field)
  {
    var t := Trim(raw);
    assert Trim(AsciiLower(raw)) == AsciiLower(t) by {
      TrimStartLower(raw);
      TrimEndLower(TrimStart(raw));
    }
    LowerIdempotent(t);
    SameNormalFormSameBoolean(AsciiLower(raw), raw, field);
  }

  lemma SameNormalFormSameBoolean(a: string, b: string, field: FieldName)
    requires AsciiLower(Trim(a)) == AsciiLower(Trim(b))
    ensures ParseBoolean(a, field) == ParseBoolean(b, field)
  {
  }

  /** The words `parseBoolean` reads as true are already lower case and
      neither start nor end with white space; so are those it reads as
      false. */
  lemma TrueWordsArePlain()
    ensures AsciiLower("true") == "true" && AsciiLower("1") == "1"
    ensures !IsJsWhitespace('t') && !IsJsWhitespace('e') && !IsJsWhitespace('1')
  {
    LowerKeepsLowerCase("true");
    LowerKeepsLowerCase("1");
  }

  lemma FalseWordsArePlain()
    ensures AsciiLower("false") == "false" && AsciiLower("0") == "0"
    ensures !IsJsWhitespace('f') && !IsJsWhitespace('e') && !IsJsWhitespace('0')
  {
    LowerKeepsLowerCase("false");
    LowerKeepsLowerCase("0");
  }

  /** The texts "true", "false", "1" and "0", padded with any white space,
      read back as the boolean they name. */
  lemma ParseBooleanRoundTrip(b: bool, p: string, q: string, field: FieldName)
    requires AllWhitespace(p) && AllWhitespace(q)
    ensures ParseBoolean(p + (if b then "true" else "false") + q, field) == Ok(b)
    ensures ParseBoolean(p + (if b then "1" else "0") + q, field) == Ok(b)
  {
    if b {
      TrueWordsArePlain();
      TrimPadded(p, "true", q);
      TrimPadded(p, "1", q);
    } else {
      FalseWordsArePlain();
      TrimPadded(p, "false", q);
      TrimPadded(p, "0", q);
    }
  }

  // ---------------------------------------------------------------------
  // The action file

  /** `parseActionsPayload`: a bare array of steps, or an object whose
      `steps` member is an array. */
  function ParseActionsPayload(parsed: Json): (r: Result<seq<Json>>)
    ensures r.Ok? <==>
      parsed.JArr? || (parsed.JObj? && "steps" in parsed.fields && parsed.fields["steps"].JArr?)
    ensures r.Err? ==> r.error == BadPayload
  {
    match parsed
    case JArr(items) => Ok(items)
    case JObj(fields) =>
      if "steps" in fields && fields["steps"].JArr? then Ok(fields["steps"].items) else Err(BadPayload)
    case _ => Err(BadPayload)
  }

  /** The two payload forms carry the same steps. */
  lemma PayloadFormsAgree(steps: seq<Json>, fields: map<string, Json>)
    ensures ParseActionsPayload(JArr(steps)) == Ok(steps)
    ensures ParseActionsPayload(JObj(fields["steps" := JArr(steps)])) == Ok(steps)
  {
  }

  /** `String(v)`, or None for a number JavaScript writes with a fraction
      or an exponent (a non-integer, or an integer of 10^21 or more), since
      such a text never matches the integer pattern. Array elements are
      joined with commas, a null element giving the empty text. */
  function JsText(v: Json): Option<string>
    decreases v, 1
  {
    match v
    case JNull => Some("null")
    case JBool(b) => Some(if b then "true" else "false")
    case JNum(x) =>
      if x.Floor as real == x && -1_000_000_000_000_000_000_000.0 < x < 1_000_000_000_000_000_000_000.0
      then Some(IntText(x.Floor))
      else None
    case JInfinite(negative) => Some(if negative then "-Infinity" else "Infinity")
    case JStr(s) => Some(s)
    case JArr(items) => JoinTexts(items)
    case JObj(_) => Some("[object Object]")
  }

  function JoinTexts(items: seq<Json>): Option<string>
    decreases items, 0
  {
    if items == [] then Some("")
    else
      var head := if items[0].JNull? then Some("") else JsText(items[0]);
      var rest := JoinTexts(items[1..]);
      if head.None? || rest.None? then None
      else Some(head.value + (if |items| > 1 then "," else "") + rest.value)
  }

  /** A step as the client replays it. */
  datatype Step = Step(buttons: seq<string>, frames: int, mouseX: Option<real>, mouseY: Option<real>)

  /** The members of a step that passes the object test; an array passes it
      and has none of the members a step reads. */
  function StepFields(raw: Json): Option<map<string, Json>> {
    match raw
    case JObj(fields) => Some(fields)
    case JArr(_) => Some(map[])
    case _ => None
  }

  function Member(fields: map<string, Json>, key: string): Option<Json> {
    if key in fields then Some(fields[key]) else None
  }

  predicate IsAllowedButton(b: Json) {
    b.JStr? && b.s in ALLOWED_BUTTONS
  }

  /** The button list of step `index`, in order, each an allowed name. */
  function CheckButtons(items: seq<Json>, index: nat): (r: Result<seq<string>>)
    ensures r.Ok? <==> forall i :: 0 <= i < |items| ==> IsAllowedButton(items[i])
    ensures r.Ok? ==> |r.value| == |items| && forall i :: 0 <= i < |items| ==> items[i] == JStr(r.value[i])
    ensures r.Err? ==> r.error.UnsupportedButton? && r.error.index == index && !IsAllowedButton(r.error.button)
  {
    if items == [] then Ok([])
    else if !IsAllowedButton(items[0]) then Err(UnsupportedButton(index, items[0]))
    else
      match CheckButtons(items[1..], index)
      case Err(e) => Err(e)
      case Ok(rest) =>
        assert forall i :: 1 <= i < |items| ==> items[i] == items[1..][i - 1];
        Ok([items[0].s] + rest)
  }

  /** The frame count of a step: 1 when absent, else `String(frames)` read
      as an integer in [1, MAX_FRAMES_PER_STEP]. */
  function StepFrames(raw: Option<Json>, index: nat): (r: Result<int>)
    ensures r.Ok? ==> 1 <= r.value <= MAX_FRAMES_PER_STEP
    ensures raw.None? ==> r == Ok(1)
    ensures r.Err? ==>
      r.error == NotAnInteger(StepFramesField(index)) || r.error == OutOfRange(StepFramesField(index), 1, MAX_FRAMES_PER_STEP)
  {
    match raw
    case None => Ok(1)
    case Some(v) =>
      match JsText(v)
      case None => Err(NotAnInteger(StepFramesField(index)))
      case Some(text) => ParseBoundedInteger(text, StepFramesField(index), 1, MAX_FRAMES_PER_STEP)
  }

  /** A frame count in range given as a number is read back. */
  lemma StepFramesReadsNumber(n: int, index: nat)
    requires 1 <= n <= MAX_FRAMES_PER_STEP
    ensures StepFrames(Some(JNum(n as real)), index) == Ok(n)
  {
    IntegerNumberText(n);
    StepFramesOfText(JNum(n as real), n, index);
  }

  /** A frame count in range given as its decimal text is read back. */
  lemma StepFramesReadsText(n: int, index: nat)
    requires 1 <= n <= MAX_FRAMES_PER_STEP
    ensures StepFrames(Some(JStr(IntText(n))), index) == Ok(n)
  {
    StepFramesOfText(JStr(IntText(n)), n, index);
  }

  /** A frame count in range given as a one-element array of that number is
      read back, since `String` of such an array is its element's text. */
  lemma StepFramesReadsSingletonArray(n: int, index: nat)
    requires 1 <= n <= MAX_FRAMES_PER_STEP
    ensures StepFrames(Some(JArr([JNum(n as real)])), index) == Ok(n)
  {
    var v := JNum(n as real);
    IntegerNumberText(n);
    SingletonText(v);
    StepFramesOfText(JArr([v]), n, index);
  }

  lemma StepFramesOfText(v: Json, n: int, index: nat)
    requires 1 <= n <= MAX_FRAMES_PER_STEP && JsText(v) == Some(IntText(n))
    ensures StepFrames(Some(v), index) == Ok(n)
  {
    FramesTextReadBack(n, index);
  }

  lemma IntegerNumberText(n: int)
    requires 1 <= n <= MAX_FRAMES_PER_STEP
    ensures JsText(JNum(n as real)) == Some(IntText(n))
  {
    assert (n as real).Floor == n;
  }

  lemma SingletonText(v: Json)
    requires !v.JNull? && JsText(v).Some?
    ensures JoinTexts([v]) == JsText(v)
  {
    assert [v][1..] == [];
    assert JsText(v).value + "" + "" == JsText(v).value;
  }

  lemma FramesTextReadBack(n: int, index: nat)
    requires 1 <= n <= MAX_FRAMES_PER_STEP
    ensures ParseBoundedInteger(IntText(n), StepFramesField(index), 1, MAX_FRAMES_PER_STEP) == Ok(n)
  {
    var text := IntText(n);
    assert !IsJsWhitespace(text[0]) && !IsJsWhitespace(text[|text| - 1]);
    TrimUnpadded(text);
  }

  /** A mouse coordinate: absent, or a finite number. */
  function StepMouse(raw: Option<Json>, err: ActionError): (r: Result<Option<real>>)
    ensures r.Err? <==> raw.Some? && !raw.value.JNum?
    ensures r.Err? ==> r.error == err
  {
    match raw
    case None => Ok(None)
    case Some(JNum(x)) => Ok(Some(x))
    case Some(_) => Err(err)
  }

  /** One step of `normalizeSteps`: the object test, the buttons, the frame
      count and the two mouse coordinates, in that order. */
  function NormalizeStep(raw: Json, index: nat): Result<Step> {
    match StepFields(raw)
    case None => Err(StepNotObject(index))
    case Some(fields) =>
      var rawButtons := if "buttons" in fields && !fields["buttons"].JNull? then fields["buttons"] else JArr([]);
      if !rawButtons.JArr? then Err(ButtonsNotArray(index))
      else
        match CheckButtons(rawButtons.items, index)
        case Err(e) => Err(e)
        case Ok(buttons) =>
          match StepFrames(Member(fields, "frames"), index)
          case Err(e) => Err(e)
          case Ok(frames) =>
            match StepMouse(Member(fields, "mouse_x"), MouseXNotFinite(index))
            case Err(e) => Err(e)
            case Ok(mouseX) =>
              match StepMouse(Member(fields, "mouse_y"), MouseYNotFinite(index))
              case Err(e) => Err(e)
              case Ok(mouseY) => Ok(Step(buttons, frames, mouseX, mouseY))
  }

  /** A normalized step holds only allowed buttons, exactly those of the
      raw step and in its order, and a frame count in range that is 1 when
      the raw step gives none; only objects and arrays become steps. */
  lemma NormalizeStepMeaning(raw: Json, index: nat)
    ensures NormalizeStep(raw, index).Ok? ==> raw.JObj? || raw.JArr?
    ensures NormalizeStep(raw, index).Ok? ==>
      var s := NormalizeStep(raw, index).value;
      && 1 <= s.frames <= MAX_FRAMES_PER_STEP
      && (forall b :: b in s.buttons ==> b in ALLOWED_BUTTONS)
      && (raw.JArr? || "frames" !in raw.fields ==> s.frames == 1)
      && (raw.JArr? || "buttons" !in raw.fields ==> s.buttons == [])
      && (raw.JObj? && "buttons" in raw.fields && raw.fields["buttons"].JArr? ==>
            |s.buttons| == |raw.fields["buttons"].items|
            && forall i :: 0 <= i < |s.buttons| ==> raw.fields["buttons"].items[i] == JStr(s.buttons[i]))
    ensures raw.JObj? && "mouse_x" in raw.fields && !raw.fields["mouse_x"].JNum? ==> NormalizeStep(raw, index).Err?
  {
    if NormalizeStep(raw, index).Ok? {
      var s := NormalizeStep(raw, index).value;
      var fields := StepFields(raw).value;
      var rawButtons := if "buttons" in fields && !fields["buttons"].JNull? then fields["buttons"] else JArr([]);
      forall b | b in s.buttons
        ensures b in ALLOWED_BUTTONS
      {
        var i :| 0 <= i < |s.buttons| && s.buttons[i] == b;
        assert rawButtons.items[i] == JStr(b);
      }
    }
  }

  /** The converse of `NormalizeStepMeaning`: an object whose buttons are
      absent, null or a list of allowed names, whose frame count reads, and
      whose mouse coordinates are absent or numbers becomes a step, with
      those buttons in order, that frame count and those coordinates. */
  lemma NormalizeStepAccepts(fields: map<string, Json>, index: nat)
    requires "buttons" in fields && !fields["buttons"].JNull? ==>
      fields["buttons"].JArr? && forall i :: 0 <= i < |fields["buttons"].items| ==> IsAllowedButton(fields["buttons"].items[i])
    requires StepFrames(Member(fields, "frames"), index).Ok?
    requires "mouse_x" in fields ==> fields["mouse_x"].JNum?
    requires "mouse_y" in fields ==> fields["mouse_y"].JNum?
    ensures var r := NormalizeStep(JObj(fields), index);
      && r.Ok?
      && r.value.frames == StepFrames(Member(fields, "frames"), index).value
      && r.value.mouseX == (if "mouse_x" in fields then Some(fields["mouse_x"].v) else None)
      && r.value.mouseY == (if "mouse_y" in fields then Some(fields["mouse_y"].v) else None)
      && (if "buttons" in fields && !fields["buttons"].JNull?
          then |r.value.buttons| == |fields["buttons"].items|
               && forall i :: 0 <= i < |r.value.buttons| ==> fields["buttons"].items[i] == JStr(r.value.buttons[i])
          else r.value.buttons == [])
  {
  }

  /** The results from `i` on, in order: all their values when every one
      succeeded, else the first error. */
  function CollectFrom<T>(results: seq<Result<T>>, i: nat): (r: Result<seq<T>>)
    requires i <= |results|
    ensures r.Ok? <==> forall j :: i <= j < |results| ==> results[j].Ok?
    ensures r.Ok? ==>
      |r.value| == |results| - i && forall j :: i <= j < |results| ==> results[j] == Ok(r.value[j - i])
    ensures r.Err? ==>
      exists k :: (i <= k < |results| && results[k] == Err(r.error) && forall j :: i <= j < k ==> results[j].Ok?)
    decreases |results| - i
  {
    if i == |results| then Ok([])
    else if results[i].Err? then Err(results[i].error)
    else
      var rest := CollectFrom(results, i + 1);
      if rest.Err? then rest
      else
        var r := Ok([results[i].value] + rest.value);
        assert forall j :: i < j < |results| ==> results[j] == Ok(r.value[j - i]);
        r
  }

  /** The outcome of normalizing each raw step on its own. */
  function StepResults(items: seq<Json>): (results: seq<Result<Step>>)
    ensures |results| == |items|
    ensures forall j :: 0 <= j < |items| ==> results[j] == NormalizeStep(items[j], j)
  {
    seq(|items|, j requires 0 <= j < |items| => NormalizeStep(items[j], j))
  }

  /** Frames per pass over the steps. */
  function TotalFrames(steps: seq<Step>): int {
    if steps == [] then 0 else TotalFrames(steps[..|steps| - 1]) + steps[|steps| - 1].frames
  }

  /** What `normalizeSteps` returns or throws. */
  function NormalizedSteps(rawSteps: Json, iterations: int): Result<seq<Step>> {
    if !rawSteps.JArr? || |rawSteps.items| == 0 then Err(NoSteps)
    else if |rawSteps.items| > MAX_STEPS then Err(TooManySteps)
    else
      match CollectFrom(StepResults(rawSteps.items), 0)
      case Err(e) => Err(e)
      case Ok(steps) =>
        if TotalFrames(steps) * iterations > MAX_TOTAL_FRAMES then Err(FrameBudgetExceeded) else Ok(steps)
  }

  /** Collecting the results `k` to `i - 1`, each a success with the given
      value, leaves the rest of the work to the results from `i` on. */
  lemma {:induction false} CollectFromSplit<T>(results: seq<Result<T>>, k: nat, i: nat, values: seq<T>)
    requires k <= i <= |results| && |values| == i - k
    requires forall j :: k <= j < i ==> results[j] == Ok(values[j - k])
    ensures CollectFrom(results, k) ==
      match CollectFrom(results, i)
      case Err(e) => Err(e)
      case Ok(rest) => Ok(values + rest)
    decreases i - k
  {
    if k == i {
      if CollectFrom(results, i).Ok? {
        assert values + CollectFrom(results, i).value == CollectFrom(results, i).value;
      }
    } else {
      CollectFromSplit(results, k + 1, i, values[1..]);
      assert results[k] == Ok(values[0]);
      if CollectFrom(results, i).Ok? {
        var rest := CollectFrom(results, i).value;
        assert CollectFrom(results, k + 1) == Ok(values[1..] + rest);
        assert [values[0]] + (values[1..] + rest) == values + rest;
      }
    }
  }

  /** Collecting from the start, after a prefix of successes. */
  lemma CollectFromPrefix<T>(results: seq<Result<T>>, values: seq<T>)
    requires |values| <= |results|
    requires forall j :: 0 <= j < |values| ==> results[j] == Ok(values[j])
    ensures CollectFrom(results, |values|).Err? ==> CollectFrom(results, 0) == CollectFrom(results, |values|)
    ensures CollectFrom(results, |values|).Ok? ==> CollectFrom(results, 0) == Ok(values + CollectFrom(results, |values|).value)
  {
    CollectFromSplit(results, 0, |values|, values);
  }

  /** One more success extends the prefix of successes. */
  lemma SuccessesExtend<T>(results: seq<Result<T>>, values: seq<T>, v: T)
    requires |values| < |results| && results[|values|] == Ok(v)
    requires forall j :: 0 <= j < |values| ==> results[j] == Ok(values[j])
    ensures forall j :: 0 <= j < |values + [v]| ==> results[j] == Ok((values + [v])[j])
  {
  }

  /** `normalizeSteps`: check the list's length, normalize every step in
      order while summing the frames of one pass, then check the frame
      budget of all passes. */
  method NormalizeSteps(rawSteps: Json, iterations: int) returns (r: Result<seq<Step>>)
    ensures r == NormalizedSteps(rawSteps, iterations)
  {
    if !rawSteps.JArr? || |rawSteps.items| == 0 {
      return Err(NoSteps);
    }
    var items := rawSteps.items;
    if |items| > MAX_STEPS {
      return Err(TooManySteps);
    }
    var framesPerIteration := 0;
    var steps: seq<Step> := [];
    ghost var results := StepResults(items);
    for i := 0 to |items|
      invariant |steps| == i
      invariant forall j :: 0 <= j < i ==> results[j] == Ok(steps[j])
      invariant framesPerIteration == TotalFrames(steps)
    {
      var step := NormalizeStep(items[i], i);
      if step.Err? {
        CollectFromPrefix(results, steps);
        return Err(step.error);
      }
      SuccessesExtend(results, steps, step.value);
      framesPerIteration := framesPerIteration + step.value.frames;
      assert (steps + [step.value])[..i] == steps;
      steps := steps + [step.value];
    }
    CollectFromPrefix(results, steps);
    assert steps + [] == steps;
    if framesPerIteration * iterations > MAX_TOTAL_FRAMES {
      return Err(FrameBudgetExceeded);
    }
    return Ok(steps);
  }

  /** A pass over steps of 1 to MAX_FRAMES_PER_STEP frames each lasts at
      least one frame per step and at most MAX_FRAMES_PER_STEP per step. */
  lemma {:induction false} TotalFramesBounds(steps: seq<Step>)
    requires forall i :: 0 <= i < |steps| ==> 1 <= steps[i].frames <= MAX_FRAMES_PER_STEP
    ensures |steps| <= TotalFrames(steps) <= MAX_FRAMES_PER_STEP * |steps|
  {
    if steps != [] {
      TotalFramesBounds(steps[..|steps| - 1]);
    }
  }

  /** The accepted step lists: between 1 and MAX_STEPS steps, one normalized
      step per raw step in the same order, and all passes together within
      MAX_TOTAL_FRAMES. The length errors come first, then the first bad
      step's error, then the budget. */
  lemma NormalizedStepsMeaning(rawSteps: Json, iterations: int)
    ensures var r := NormalizedSteps(rawSteps, iterations);
      r.Ok? ==>
        && rawSteps.JArr? && |r.value| == |rawSteps.items| && 1 <= |r.value| <= MAX_STEPS
        && (forall i :: 0 <= i < |r.value| ==> NormalizeStep(rawSteps.items[i], i) == Ok(r.value[i]))
        && (forall i :: 0 <= i < |r.value| ==> 1 <= r.value[i].frames <= MAX_FRAMES_PER_STEP)
        && TotalFrames(r.value) * iterations <= MAX_TOTAL_FRAMES
        && |r.value| <= TotalFrames(r.value) <= MAX_FRAMES_PER_STEP * |r.value|
    ensures NormalizedSteps(rawSteps, iterations) == Err(NoSteps) <==> !rawSteps.JArr? || |rawSteps.items| == 0
    ensures NormalizedSteps(rawSteps, iterations) == Err(TooManySteps) <==> rawSteps.JArr? && |rawSteps.items| > MAX_STEPS
    ensures rawSteps.JArr? && 1 <= |rawSteps.items| <= MAX_STEPS ==>
      (NormalizedSteps(rawSteps, iterations).Ok? <==>
        (forall j :: 0 <= j < |rawSteps.items| ==> NormalizeStep(rawSteps.items[j], j).Ok?)
        && TotalFrames(CollectFrom(StepResults(rawSteps.items), 0).value) * iterations <= MAX_TOTAL_FRAMES)
  {
    var r := NormalizedSteps(rawSteps, iterations);
    if r.Ok? {
      var steps := r.value;
      forall i | 0 <= i < |steps|
        ensures 1 <= steps[i].frames <= MAX_FRAMES_PER_STEP
      {
        NormalizeStepMeaning(rawSteps.items[i], i);
      }
      TotalFramesBounds(steps);
    }
    if rawSteps.JArr? && 1 <= |rawSteps.items| <= MAX_STEPS && CollectFrom(StepResults(rawSteps.items), 0).Err? {
      NormalizedStepsFirstError(rawSteps, iterations);
    }
  }

  /** Between the length checks and the budget check, the error is that of
      the first step that fails, and it names that step. */
  lemma NormalizedStepsFirstError(rawSteps: Json, iterations: int)
    requires rawSteps.JArr? && 1 <= |rawSteps.items| <= MAX_STEPS
    requires CollectFrom(StepResults(rawSteps.items), 0).Err?
    ensures var e := NormalizedSteps(rawSteps, iterations).error;
      exists k :: (0 <= k < |rawSteps.items| && NormalizeStep(rawSteps.items[k], k) == Err(e) && IsStepError(e, k)
        && forall j :: 0 <= j < k ==> NormalizeStep(rawSteps.items[j], j).Ok?)
  {
    var results := StepResults(rawSteps.items);
    var e := CollectFrom(results, 0).error;
    var k :| 0 <= k < |results| && results[k] == Err(e) && forall j :: 0 <= j < k ==> results[j].Ok?;
    NormalizeStepErrors(rawSteps.items[k], k);
    assert NormalizedSteps(rawSteps, iterations) == Err(e);
    forall j | 0 <= j < k
      ensures NormalizeStep(rawSteps.items[j], j).Ok?
    {
      assert results[j].Ok?;
    }
  }

  /** The errors one step can raise, each naming that step. */
  predicate IsStepError(e: ActionError, index: nat) {
    match e
    case StepNotObject(i) => i == index
    case ButtonsNotArray(i) => i == index
    case UnsupportedButton(i, _) => i == index
    case NotAnInteger(f) => f == StepFramesField(index)
    case OutOfRange(f, lo, hi) => f == StepFramesField(index) && lo == 1 && hi == MAX_FRAMES_PER_STEP
    case MouseXNotFinite(i) => i == index
    case MouseYNotFinite(i) => i == index
    case _ => false
  }

  /** A step that fails names itself in its error, and never fails with a
      list-level or payload error. */
  lemma NormalizeStepErrors(raw: Json, index: nat)
    ensures NormalizeStep(raw, index).Err? ==> IsStepError(NormalizeStep(raw, index).error, index)
  {
    match StepFields(raw)
    case None =>
    case Some(fields) =>
      var rawButtons := if "buttons" in fields && !fields["buttons"].JNull? then fields["buttons"] else JArr([]);
      if rawButtons.JArr? && CheckButtons(rawButtons.items, index).Ok? {
        var frames := StepFrames(Member(fields, "frames"), index);
        assert frames.Err? ==> IsStepError(frames.error, index);
      }
  }

  // ---------------------------------------------------------------------
  // Console errors

  /** A console message or uncaught page error; two are the same error
      exactly when their kind and text agree, the identity the client's
      `JSON.stringify` key gives them. */
  datatype ConsoleError = ConsoleError(kind: string, text: string)

  /** `ConsoleErrorTracker`: buffers each distinct error the first time it
      is seen, and hands the buffer over on `drain`. The ghost `history`
      is every error ever buffered, drained or not, in order. */
  class ConsoleErrorTracker {
    var seen: set<ConsoleError>
    var errors: seq<ConsoleError>
    ghost var history: seq<ConsoleError>

    /** No error is ever buffered twice, the seen set is exactly what was
        ever buffered, and the buffer is the undrained tail of the history. */
    ghost predicate Valid()
      reads this
    {
      && (forall i, j :: 0 <= i < j < |history| ==> history[i] != history[j])
      && (forall e :: e in seen <==> e in history)
      && |errors| <= |history| && errors == history[|history| - |errors|..]
    }

    constructor ()
      ensures Valid() && seen == {} && errors == [] && history == []
    {
      seen := {};
      errors := [];
      history := [];
    }

    /** `ingest`: an error not seen before is remembered and buffered; a
        repeat changes nothing. */
    method Ingest(err: ConsoleError)
      requires Valid()
      modifies this
      ensures Valid()
      ensures seen == old(seen) + {err}
      ensures errors == if err in old(seen) then old(errors) else old(errors) + [err]
      ensures history == if err in old(seen) then old(history) else old(history) + [err]
    {
      if err in seen {
        return;
      }
      seen := seen + {err};
      errors := errors + [err];
      history := history + [err];
    }

    /** `drain`: hand over the buffered errors in ingest order and empty the
        buffer; the seen set stays, so a drained error is never buffered
        again. */
    method Drain() returns (next: seq<ConsoleError>)
      requires Valid()
      modifies this`errors
      ensures Valid()
      ensures next == old(errors) && errors == [] && seen == old(seen)
    {
      next := errors;
      errors := [];
    }
  }

  /** An error seen for the first time is reported by the next drain, and
      by no later one however often it recurs. */
  method ErrorIsReportedOnce(tracker: ConsoleErrorTracker, err: ConsoleError)
    returns (first: seq<ConsoleError>, second: seq<ConsoleError>)
    requires tracker.Valid() && err !in tracker.seen
    modifies tracker
    ensures first == old(tracker.errors) + [err]
    ensures second == []
    ensures tracker.Valid()
  {
    tracker.Ingest(err);
    first := tracker.Drain();
    tracker.Ingest(err);
    second := tracker.Drain();
  }
}
