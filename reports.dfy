/**
 * The report a user files each interval: the four category answers, their
 * validation, and the log entry that records a report.
 */
module Reports {

  /** The values currently typed into the four input fields of a form. */
  datatype Form = Form(salud: string, enfoque: string, ingreso: string, control: string)

  /** The `data` object stored in a log entry, keyed by category. */
  datatype Answers = Answers(salud: string, enfoque: string, ingreso: string, control: string)

  /** The `type` tag of a log entry. */
  datatype EntryKind = Regular | Recovery | Reset

  /** One log entry; never changed once appended. */
  datatype Entry = Entry(kind: EntryKind, timestamp: int, data: Answers)

  /** The sentinel answers written by a level reset. */
  const RESET_ANSWERS: Answers := Answers("FALLO", "FALLO", "FALLO", "REINICIO DE NIVEL")

  /** The fields of a form in declaration order, as `Object.values` lists them. */
  function FormValues(f: Form): seq<string>
  {
    [f.salud, f.enfoque, f.ingreso, f.control]
  }

  /** The values of stored answers in key order. */
  function AnswerValues(a: Answers): seq<string>
  {
    [a.salud, a.enfoque, a.ingreso, a.control]
  }

  /**
   * The characters `String.prototype.trim` removes: ECMAScript WhiteSpace
   * (tab, vertical tab, form feed, space, no-break space, byte order mark and
   * the Unicode space separators) and LineTerminator.
   */
  predicate IsWhitespace(c: char)
  {
    c in WHITESPACE || '\U{2000}' <= c <= '\U{200A}'
  }

  const WHITESPACE: set<char> := {
    '\U{0009}', '\U{000B}', '\U{000C}', '\U{0020}', '\U{00A0}', '\U{FEFF}',
    '\U{1680}', '\U{202F}', '\U{205F}', '\U{3000}',
    '\U{000A}', '\U{000D}', '\U{2028}', '\U{2029}'
  }

  /** True when `s` holds at least one character that trimming keeps. */
  predicate HasContent(s: string)
  {
    exists i :: 0 <= i < |s| && !IsWhitespace(s[i])
  }

  /** `trimStart`: drops leading whitespace (specified by `TrimStartSpec`). */
  function TrimStart(s: string): string
  {
    if s != [] && IsWhitespace(s[0]) then TrimStart(s[1..]) else s
  }

  /** `trimEnd`: drops trailing whitespace (specified by `TrimEndSpec`). */
  function TrimEnd(s: string): string
  {
    if s != [] && IsWhitespace(s[|s| - 1]) then TrimEnd(s[..|s| - 1]) else s
  }

  /** Trimming the start keeps a suffix that starts at a non-blank character and drops only blanks. */
  lemma {:induction false} TrimStartSpec(s: string)
    ensures var r := TrimStart(s);
      |r| <= |s| && r == s[|s| - |r|..]
      && (forall i :: 0 <= i < |s| - |r| ==> IsWhitespace(s[i]))
      && (r != [] ==> !IsWhitespace(r[0]))
  {
    if s != [] && IsWhitespace(s[0]) {
      TrimStartSpec(s[1..]);
      var r := TrimStart(s);
      forall i | 1 <= i < |s| - |r|
        ensures IsWhitespace(s[i])
      {
        assert s[i] == s[1..][i - 1];
      }
    }
  }

  /** Trimming the end keeps a prefix that ends at a non-blank character and drops only blanks. */
  lemma {:induction false} TrimEndSpec(s: string)
    ensures var r := TrimEnd(s);
      |r| <= |s| && r == s[..|r|]
      && (forall i :: |r| <= i < |s| ==> IsWhitespace(s[i]))
      && (r != [] ==> !IsWhitespace(r[|r| - 1]))
  {
    if s != [] && IsWhitespace(s[|s| - 1]) {
      TrimEndSpec(s[..|s| - 1]);
    }
  }

  /**
   * `String.prototype.trim`: what is left has a positive length exactly when
   * `s` holds a non-whitespace character.
   */
  function Trim(s: string): (r: string)
    ensures |r| > 0 <==> HasContent(s)
  {
    var t := TrimStart(s);
    var k := |s| - |t|;
    TrimStartSpec(s);
    TrimEndSpec(t);
    var r := TrimEnd(t);
    if |r| > 0 then
      assert t[0] == s[k] && !IsWhitespace(s[k]);
      r
    else r
  }

  /**
   * `validateInputs`: every field value, trimmed, is non-empty. A form is
   * accepted exactly when none of its fields is blank.
   */
  function ValidateInputs(f: Form): (ok: bool)
    ensures ok <==> HasContent(f.salud) && HasContent(f.enfoque) && HasContent(f.ingreso) && HasContent(f.control)
  {
    |Trim(f.salud)| > 0 && |Trim(f.enfoque)| > 0 && |Trim(f.ingreso)| > 0 && |Trim(f.control)| > 0
  }

  /** `getInputValues`: the answers stored are the form's values, field for field. */
  function GetInputValues(f: Form): (a: Answers)
    ensures AnswerValues(a) == FormValues(f)
  {
    Answers(f.salud, f.enfoque, f.ingreso, f.control)
  }
}
