/**
 * The check-in form's on-screen keypad: a value of at most three digits, a
 * display showing it padded with underscores, a hidden form field mirroring
 * it, and the validation run when the form is submitted.
 */
module LockerKeypad {
  import opened Wrappers
  import opened Text

  /** JavaScript's `<=` on strings: lexicographic order of UTF-16 code units. */
  predicate StrLe(a: string, b: string) {
    if a == [] then true
    else if b == [] then false
    else if a[0] != b[0] then a[0] < b[0]
    else StrLe(a[1..], b[1..])
  }

  /** The keydown handler's digit test `key >= '0' && key <= '9'`. */
  predicate IsDigitKey(key: string) {
    StrLe("0", key) && StrLe(key, "9")
  }

  /** A one-character key passes the digit test exactly when it is a decimal digit. */
  lemma DigitKeyIsDigit(key: string)
    requires |key| == 1
    ensures IsDigitKey(key) <==> IsDigit(key[0])
  {
    assert key[1..] == [] && "0"[1..] == [] && "9"[1..] == [];
    assert StrLe("0", key) <==> '0' <= key[0] by {
      assert StrLe([], key[1..]);
    }
    assert StrLe(key, "9") <==> key[0] <= '9' by {
      assert StrLe(key[1..], "9"[1..]);
    }
  }

  /** Named keys (`Backspace`, `Escape`, `Enter`, `Tab`, ...) start with a capital letter and fail the digit test. */
  lemma NamedKeyIsNotDigit(key: string)
    requires |key| > 1 && 'A' <= key[0] <= 'Z'
    ensures !IsDigitKey(key)
  {
  }

  /** `padStart(width, fill)` */
  function PadStart(s: string, width: nat, fill: char): (r: string)
    ensures |s| >= width ==> r == s
    ensures |s| < width ==>
      (|r| == width && r[width - |s|..] == s && forall i :: 0 <= i < width - |s| ==> r[i] == fill)
  {
    if |s| >= width then s else seq(width - |s|, _ => fill) + s
  }

  /** The text of the keypad display for a value. */
  function DisplayText(value: string): (text: string)
    ensures |value| <= 3 ==> |text| == 3
    ensures value != "" ==> |text| >= |value| && text[|text| - |value|..] == value
  {
    if value == "" then "---" else PadStart(value, 3, '_')
  }

  /** The value after a key press: the digit is appended only while fewer than 3 characters are entered. */
  function Pressed(value: string, digit: string): (r: string)
    ensures value <= r
    ensures |value| >= 3 ==> r == value
  {
    if |value| < 3 then value + digit else value
  }

  /** `slice(0, -1)`: the value without its last character; "" stays "". */
  function Backspaced(value: string): (r: string)
    ensures value == [] ==> r == []
    ensures value != [] ==> r + [value[|value| - 1]] == value
  {
    if value == [] then [] else value[..|value| - 1]
  }

  /** A value the keypad can hold: up to three decimal digits. */
  predicate KeypadValue(value: string) {
    |value| <= 3 && forall i :: 0 <= i < |value| ==> IsDigit(value[i])
  }

  /** Pressing a digit or backspacing keeps a keypad value a keypad value; presses beyond three are dropped. */
  lemma {:induction false} KeysKeepKeypadValue(value: string, digit: char)
    requires KeypadValue(value) && IsDigit(digit)
    ensures KeypadValue(Pressed(value, [digit]))
    ensures KeypadValue(Backspaced(value))
    ensures |value| == 3 ==> Pressed(value, [digit]) == value
  {
  }

  /** Every keypad display is three characters wide: "---" when empty, else the value behind underscores. */
  lemma {:induction false} DisplayWidth(value: string)
    requires KeypadValue(value)
    ensures |DisplayText(value)| == 3
    ensures value != "" ==> DisplayText(value)[3 - |value|..] == value
  {
  }

  /** The keypad, its display and the hidden `locker_number` field, on the check-in page. */
  class Keypad {
    var value: string
    var display: string
    /** Whether the display is highlighted (amber) rather than greyed out. */
    var lit: bool
    var hidden: string

    /** The display and the hidden field show the current value. */
    predicate Shown()
      reads this
    {
      display == DisplayText(value) && lit == (value != "") && hidden == value
    }

    /** Page load: an empty value, shown. */
    constructor ()
      ensures value == "" && Shown()
      ensures display == "---" && hidden == ""
    {
      value := "";
      display := "---";
      lit := false;
      hidden := "";
    }

    /** `updateKeypadDisplay` */
    method UpdateDisplay()
      modifies this
      ensures value == old(value) && Shown()
    {
      if value == "" {
        display := "---";
        lit := false;
        hidden := "";
      } else {
        display := PadStart(value, 3, '_');
        lit := true;
        hidden := value;
      }
    }

    /** `keypadPress` */
    method Press(digit: string)
      modifies this
      ensures value == Pressed(old(value), digit)
      ensures |old(value)| < 3 ==> Shown()
      ensures |old(value)| >= 3 ==> unchanged(this)
    {
      if |value| < 3 {
        value := value + digit;
        UpdateDisplay();
      }
    }

    /** `keypadClear` */
    method Clear()
      modifies this
      ensures value == "" && Shown()
    {
      value := "";
      UpdateDisplay();
    }

    /** `keypadBackspace` */
    method Backspace()
      modifies this
      ensures value == Backspaced(old(value)) && Shown()
    {
      value := Backspaced(value);
      UpdateDisplay();
    }

    /**
     * The keydown listener: a digit key presses, Backspace backspaces, Escape
     * clears, each suppressing the browser default; other keys, and every key
     * when the page has no keypad display, change nothing.
     */
    method KeyDown(key: string, displayPresent: bool) returns (prevented: bool)
      modifies this
      ensures !displayPresent ==> !prevented && unchanged(this)
      ensures displayPresent && IsDigitKey(key) ==> prevented && value == Pressed(old(value), key)
      ensures displayPresent && !IsDigitKey(key) && key == "Backspace" ==> prevented && value == Backspaced(old(value))
      ensures displayPresent && !IsDigitKey(key) && key == "Escape" ==> prevented && value == ""
      ensures displayPresent && !IsDigitKey(key) && key != "Backspace" && key != "Escape" ==>
        !prevented && unchanged(this)
      ensures old(Shown()) ==> Shown()
    {
      prevented := false;
      if !displayPresent {
        return;
      }
      if IsDigitKey(key) {
        prevented := true;
        Press(key);
      } else if key == "Backspace" {
        prevented := true;
        Backspace();
      } else if key == "Escape" {
        prevented := true;
        Clear();
      }
    }
  }

  /** JavaScript's white space and line terminators, which `parseInt` skips. */
  predicate IsJsSpace(c: char) {
    c == ' ' || '\t' <= c <= '\r' || c == '\U{00A0}' || c == '\U{1680}' || '\U{2000}' <= c <= '\U{200A}' ||
    c == '\U{2028}' || c == '\U{2029}' || c == '\U{202F}' || c == '\U{205F}' || c == '\U{3000}' || c == '\U{FEFF}'
  }

  function SkipSpace(s: string): (r: string)
    ensures |r| <= |s| && r == s[|s| - |r|..]
    ensures r == [] || !IsJsSpace(r[0])
  {
    if s != [] && IsJsSpace(s[0]) then SkipSpace(s[1..]) else s
  }

  /** The number of leading decimal digits. */
  function DigitPrefix(s: string): (k: nat)
    ensures k <= |s|
    ensures forall i :: 0 <= i < k ==> IsDigit(s[i])
    ensures k < |s| ==> !IsDigit(s[k])
  {
    if s != [] && IsDigit(s[0]) then 1 + DigitPrefix(s[1..]) else 0
  }

  lemma {:induction false} DigitsValueBound(d: string)
    requires forall i :: 0 <= i < |d| ==> IsDigit(d[i])
    requires |d| <= 3
    ensures DigitsValue(d) <= 999
    ensures |d| <= 2 ==> DigitsValue(d) <= 99
    ensures |d| <= 1 ==> DigitsValue(d) <= 9
  {
    if d != [] {
      DigitsValueBound(d[..|d| - 1]);
    }
  }

  /** `parseInt(s, 10)`: optional white space and sign, then the longest digit prefix; `None` is NaN. */
  function ParseInt(s: string): (r: Option<int>)
    ensures r.None? <==> DigitPrefix(Unsigned(SkipSpace(s))) == 0
  {
    var t := SkipSpace(s);
    var u := Unsigned(t);
    var k := DigitPrefix(u);
    if k == 0 then None
    else
      var magnitude: int := DigitsValue(u[..k]);
      if t[0] == '-' then Some(-magnitude) else Some(magnitude)
  }

  function Unsigned(t: string): string {
    if t != [] && (t[0] == '-' || t[0] == '+') then t[1..] else t
  }

  /** The outcome of `validateForm`: the submission goes ahead, or an alert is shown and it is stopped. */
  datatype Validation = Accepted | Rejected(alert: string)

  const EmptyAlert := "Please enter a locker number using the keypad"
  const RangeAlert := "Please enter a valid locker number between 0 and 999"

  /** `validateForm`, given the hidden field's value. */
  function ValidateForm(field: string): (v: Validation)
    ensures v == Accepted ==> ParseInt(field).Some? && 0 <= ParseInt(field).value <= 999
    ensures v.Rejected? ==> v.alert in {EmptyAlert, RangeAlert} && (v.alert == EmptyAlert <==> field == "")
  {
    if field == "" then Rejected(EmptyAlert)
    else
      var number := ParseInt(field);
      if number.None? || number.value < 0 || number.value > 999 then Rejected(RangeAlert)
      else Accepted
  }

  /** The form is accepted exactly when the field is non-empty and parses to a number in 0..999. */
  lemma ValidateFormAccepts(field: string)
    ensures ValidateForm(field) == Accepted <==>
      field != "" && ParseInt(field).Some? && 0 <= ParseInt(field).value <= 999
    ensures field == "" ==> ValidateForm(field) == Rejected(EmptyAlert)
  {
  }

  /** A string of digits parses to its value. */
  lemma {:induction false} ParseDigits(d: string)
    requires d != [] && forall i :: 0 <= i < |d| ==> IsDigit(d[i])
    ensures ParseInt(d) == Some(DigitsValue(d))
  {
    NoLeadingSpace(d);
    DigitPrefixAll(d);
    assert d[..|d|] == d;
    ParseParts(d, d, d, |d|);
  }

  /** `parseInt` reads back every integer as `String()` renders it. */
  lemma {:induction false} ParseRendered(n: int)
    ensures ParseInt(IntToString(n)) == Some(n)
  {
    var r := IntToString(n);
    if n < 0 {
      var d := r[1..];
      NoLeadingSpace(r);
      DigitPrefixAll(d);
      assert d[..|d|] == d;
      ParseParts(r, r, d, |d|);
    } else {
      ParseDigits(r);
    }
  }

  /** `parseInt` once its blank prefix, sign and digit run are known. */
  lemma ParseParts(s: string, t: string, u: string, k: nat)
    requires t == SkipSpace(s) && t != [] && u == Unsigned(t) && k == DigitPrefix(u) && 0 < k <= |u|
    ensures ParseInt(s) == Some(if t[0] == '-' then -(DigitsValue(u[..k]) as int) else DigitsValue(u[..k]) as int)
  {
  }

  /** A string that starts with no blank is not trimmed. */
  lemma NoLeadingSpace(s: string)
    requires s != [] && !IsJsSpace(s[0])
    ensures SkipSpace(s) == s
  {
  }

  lemma {:induction false} DigitPrefixAll(d: string)
    requires forall i :: 0 <= i < |d| ==> IsDigit(d[i])
    ensures DigitPrefix(d) == |d|
    decreases |d|
  {
    if d != [] {
      DigitPrefixAll(d[1..]);
    }
  }

  /** Every non-empty value the keypad can hold passes validation. */
  lemma KeypadValuesAccepted(value: string)
    requires KeypadValue(value) && value != ""
    ensures ValidateForm(value) == Accepted
  {
    ParseDigits(value);
    DigitsValueBound(value);
    ValidateFormAccepts(value);
  }

  /** Whatever keys were pressed, a form showing a non-empty keypad value passes validation. */
  lemma KeypadSubmission(k: Keypad)
    requires k.Shown() && KeypadValue(k.value) && k.value != ""
    ensures ValidateForm(k.hidden) == Accepted
  {
    KeypadValuesAccepted(k.value);
  }

  /** An empty field and a field with no leading digits are refused with their alerts. */
  lemma EmptyAndNaNRejected()
    ensures ValidateForm("") == Rejected(EmptyAlert)
    ensures ValidateForm("abc") == Rejected(RangeAlert)
  {
    var t := SkipSpace("abc");
    assert t == "abc";
    assert Unsigned(t) == t;
    assert DigitPrefix(t) == 0;
  }

  /** A negative number parses, but is refused as out of range. */
  lemma NegativeRejected(field: string)
    requires field == "-5"
    ensures ParseInt(field) == Some(-5)
    ensures ValidateForm(field) == Rejected(RangeAlert)
  {
    assert |field| == 2 && field[0] == '-' && field[1] == '5';
    NegativeDigit(field);
    OutOfRangeRejected(field);
  }

  /** A minus sign and one digit parse to minus that digit's value. */
  lemma NegativeDigit(field: string)
    requires |field| == 2 && field[0] == '-' && IsDigit(field[1])
    ensures ParseInt(field) == Some(-(field[1] as int - '0' as int))
  {
    NoLeadingSpace(field);
    var u := field[1..];
    assert Unsigned(field) == u;
    DigitPrefixAll(u);
    assert u[..1] == u;
    assert u[..0] == [];
    ParseParts(field, field, u, 1);
  }

  /** A non-empty field whose number is below 0 or above 999 is refused with the range alert. */
  lemma OutOfRangeRejected(field: string)
    requires field != "" && ParseInt(field).Some? && (ParseInt(field).value < 0 || ParseInt(field).value > 999)
    ensures ValidateForm(field) == Rejected(RangeAlert)
  {
  }
}
