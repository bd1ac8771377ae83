/** What the three form pages share: form state as a dictionary from field
    name to value, the "update only the named field" handler, and the email
    pattern `/^[^\s@]+@[^\s@]+\.[^\s@]+$/` used by the signup and login
    pages. */
module Forms {

  /** Form data keyed by input `name`. */
  type Form = map<string, string>

  /** A validation result: field name to error message. */
  type Errors = map<string, string>

  /** `form[name]`: an absent field is undefined, which is falsy like "". */
  function Field(form: Form, name: string): string {
    if name in form then form[name] else ""
  }

  /** `{ ...form, [name]: value }`, the body of every `handleChange`. */
  function UpdateField(form: Form, name: string, value: string): (r: Form)
    ensures r.Keys == form.Keys + {name}
    ensures Field(r, name) == value
    ensures forall k :: k != name ==> Field(r, k) == Field(form, k)
  {
    form[name := value]
  }

  /** The characters `\s` matches in a JavaScript regular expression. */
  predicate IsJsWhitespace(c: char)
    // the separators of an address are not whitespace
    ensures IsJsWhitespace(c) ==> c != '@' && c != '.'
  {
    || c == '\t' || c == '\n' || c == '\U{000B}' || c == '\U{000C}' || c == '\r' || c == ' '
    || c == '\U{00A0}' || c == '\U{1680}' || ('\U{2000}' <= c <= '\U{200A}')
    || c == '\U{2028}' || c == '\U{2029}' || c == '\U{202F}' || c == '\U{205F}'
    || c == '\U{3000}' || c == '\U{FEFF}'
  }

  /** The class `[^\s@]`. */
  predicate PlainChar(c: char) {
    c != '@' && !IsJsWhitespace(c)
  }

  predicate AllPlain(s: string) {
    forall i :: 0 <= i < |s| ==> PlainChar(s[i])
  }

  /** `emailPattern.test(s)`: the whole string is a non-empty run of plain
      characters, '@', another such run, '.', and a last such run. */
  predicate EmailPattern(s: string)
    ensures EmailPattern(s) ==> 5 <= |s| && PlainChar(s[0]) && PlainChar(s[|s| - 1])
  {
    exists a, d :: 0 < a < |s| && a + 1 < d < |s| - 1 && s[a] == '@' && s[d] == '.'
                   && AllPlain(s[..a]) && AllPlain(s[a + 1..d]) && AllPlain(s[d + 1..])
  }

  /** The domain part contains a '.' that is neither its first nor its last character. */
  predicate InnerDot(domain: string) {
    exists k :: 0 < k < |domain| - 1 && domain[k] == '.'
  }

  /** The shape of the strings the pattern accepts, stated directly. */
  predicate WellShapedEmail(s: string) {
    exists a :: 0 < a < |s| && s[a] == '@'
                && (forall k :: 0 <= k < |s| && k != a ==> s[k] != '@')
                && (forall k :: 0 <= k < |s| ==> !IsJsWhitespace(s[k]))
                && InnerDot(s[a + 1..])
  }

  lemma EmailPatternIsWellShaped(s: string)
    requires EmailPattern(s)
    ensures WellShapedEmail(s)
  {
    var a, d :| 0 < a < |s| && a + 1 < d < |s| - 1 && s[a] == '@' && s[d] == '.'
                && AllPlain(s[..a]) && AllPlain(s[a + 1..d]) && AllPlain(s[d + 1..]);
    var local, mid, last := s[..a], s[a + 1..d], s[d + 1..];
    forall k | 0 <= k < |s|
      ensures (k != a ==> s[k] != '@') && !IsJsWhitespace(s[k])
    {
      if k < a { assert s[k] == local[k]; assert PlainChar(local[k]); }
      else if a < k < d { assert s[k] == mid[k - a - 1]; assert PlainChar(mid[k - a - 1]); }
      else if d < k { assert s[k] == last[k - d - 1]; assert PlainChar(last[k - d - 1]); }
    }
    var domain := s[a + 1..];
    assert domain[d - a - 1] == '.';
    assert InnerDot(domain);
  }

  lemma WellShapedIsEmailPattern(s: string)
    requires WellShapedEmail(s)
    ensures EmailPattern(s)
  {
    var a :| 0 < a < |s| && s[a] == '@'
             && (forall k :: 0 <= k < |s| && k != a ==> s[k] != '@')
             && (forall k :: 0 <= k < |s| ==> !IsJsWhitespace(s[k]))
             && InnerDot(s[a + 1..]);
    var domain := s[a + 1..];
    var m :| 0 < m < |domain| - 1 && domain[m] == '.';
    var d := a + 1 + m;
    assert s[d] == domain[m];
    var local, mid, last := s[..a], s[a + 1..d], s[d + 1..];
    forall i | 0 <= i < |local| ensures PlainChar(local[i]) { assert local[i] == s[i]; }
    forall i | 0 <= i < |mid| ensures PlainChar(mid[i]) { assert mid[i] == s[a + 1 + i]; }
    forall i | 0 <= i < |last| ensures PlainChar(last[i]) { assert last[i] == s[d + 1 + i]; }
    assert AllPlain(local) && AllPlain(mid) && AllPlain(last);
  }

  /** The pattern accepts a string exactly when it has one '@', no
      whitespace, a non-empty part before the '@', and after it a '.' that
      is neither the first nor the last character. */
  lemma EmailPatternShape(s: string)
    ensures EmailPattern(s) <==> WellShapedEmail(s)
  {
    if EmailPattern(s) { EmailPatternIsWellShaped(s); }
    if WellShapedEmail(s) { WellShapedIsEmailPattern(s); }
  }

  /** The empty string never matches, so "required" and "invalid format"
      never both apply. */
  lemma EmptyIsNotAnEmail()
    ensures !EmailPattern("")
  {
  }
}
