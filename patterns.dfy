/**
 * The regular expressions the validators apply, each written as the set of strings
 * `Regex.IsMatch` accepts. Without `RegexOptions.Multiline`, .NET's `$` matches at the
 * very end of the input or just before a final '\n', so every `^...$` pattern also
 * accepts its match followed by one newline. An unanchored `\{\{` alternative accepts
 * any input containing "{{".
 */
module Patterns {
  import opened Text

  predicate EndsWithNewline(s: string) { |s| > 0 && s[|s| - 1] == '\n' }

  /** `s` without its final character. */
  function Chomp(s: string): string requires |s| > 0 { s[..|s| - 1] }

  /** `[a-z0-9-]` */
  predicate IsLabelChar(c: char) { IsAsciiLower(c) || IsAsciiDigit(c) || c == '-' }

  /** `[a-zA-Z0-9_-]` */
  predicate IsIdentifierChar(c: char) { IsAsciiLetter(c) || IsAsciiDigit(c) || c == '_' || c == '-' }

  /** `[a-zA-Z0-9_]` */
  predicate IsEnvChar(c: char) { IsAsciiLetter(c) || IsAsciiDigit(c) || c == '_' }

  predicate LabelTail(s: string) { forall i :: 1 <= i < |s| ==> IsLabelChar(s[i]) }
  predicate IdentifierTail(s: string) { forall i :: 1 <= i < |s| ==> IsIdentifierChar(s[i]) }
  predicate EnvTail(s: string) { forall i :: 1 <= i < |s| ==> IsEnvChar(s[i]) }

  // ----- pattern bodies: the text between ^ and $ must be exactly this -----

  predicate IdentifierBody(s: string) { |s| >= 1 && IsAsciiLetter(s[0]) && IdentifierTail(s) }
  predicate LowerNameBody(s: string) { |s| >= 1 && IsAsciiLower(s[0]) && LabelTail(s) }
  predicate LabelBody(s: string) { |s| >= 1 && (IsAsciiLower(s[0]) || IsAsciiDigit(s[0])) && LabelTail(s) }
  predicate TwoCharLabelBody(s: string) { |s| == 2 && LabelBody(s) }
  predicate BoundedLabelBody(s: string) { 2 <= |s| <= 63 && LabelBody(s) }
  predicate BoundedLowerNameBody(s: string) { 2 <= |s| <= 63 && LowerNameBody(s) }
  predicate EnvNameBody(s: string) { |s| >= 1 && (IsAsciiLetter(s[0]) || s[0] == '_') && EnvTail(s) }

  /** `[0-9]{1,3}` */
  predicate OctetBody(s: string) { 1 <= |s| <= 3 && forall i :: 0 <= i < |s| ==> IsAsciiDigit(s[i]) }

  /** `s` cut at every `separator`; always at least one field. */
  function Split(s: string, separator: char): (r: seq<string>)
    ensures |r| >= 1
    decreases |s|
  {
    if |s| == 0 then [""]
    else
      var rest := Split(s[1..], separator);
      if s[0] == separator then [""] + rest else [[s[0]] + rest[0]] + rest[1..]
  }

  /** `[0-9]{1,3}\.[0-9]{1,3}\.[0-9]{1,3}\.[0-9]{1,3}`: digits never contain '.', so the fields are the split. */
  predicate DottedQuadBody(s: string) {
    var fields := Split(s, '.');
    |fields| == 4 && forall i :: 0 <= i < 4 ==> OctetBody(fields[i])
  }

  // ----- whole patterns, with the .NET meaning of `$` -----

  /** `^[a-zA-Z][a-zA-Z0-9_-]*$` */
  predicate IsIdentifier(s: string) {
    IdentifierBody(s) || (EndsWithNewline(s) && IdentifierBody(Chomp(s)))
  }

  /** `^[a-z][a-z0-9-]*$` */
  predicate IsLowerName(s: string) {
    LowerNameBody(s) || (EndsWithNewline(s) && LowerNameBody(Chomp(s)))
  }

  /** `^[a-z0-9][a-z0-9-]*$` */
  predicate IsLabel(s: string) {
    LabelBody(s) || (EndsWithNewline(s) && LabelBody(Chomp(s)))
  }

  /** `^[a-z0-9][a-z0-9-]$` */
  predicate IsTwoCharLabel(s: string) {
    TwoCharLabelBody(s) || (EndsWithNewline(s) && TwoCharLabelBody(Chomp(s)))
  }

  /** `^[a-z0-9][a-z0-9-]{1,62}$` */
  predicate IsBoundedLabel(s: string) {
    BoundedLabelBody(s) || (EndsWithNewline(s) && BoundedLabelBody(Chomp(s)))
  }

  /** `^[a-z][a-z0-9-]{1,62}$` */
  predicate IsBoundedLowerName(s: string) {
    BoundedLowerNameBody(s) || (EndsWithNewline(s) && BoundedLowerNameBody(Chomp(s)))
  }

  /** `^[a-zA-Z_][a-zA-Z0-9_]*$` */
  predicate IsEnvName(s: string) {
    EnvNameBody(s) || (EndsWithNewline(s) && EnvNameBody(Chomp(s)))
  }

  /** `^[0-9]{1,3}\.[0-9]{1,3}\.[0-9]{1,3}\.[0-9]{1,3}$` */
  predicate IsDottedQuad(s: string) {
    DottedQuadBody(s) || (EndsWithNewline(s) && DottedQuadBody(Chomp(s)))
  }

  /** The unanchored alternative `\{\{`: a templating placeholder anywhere in the value. */
  predicate HasPlaceholder(s: string) { Contains(s, "{{") }

  // ----- what the patterns mean -----

  /** The two-character pattern of the command-line mapped namespaces admits nothing longer than two characters plus a final newline. */
  lemma TwoCharLabelLength(s: string)
    ensures IsTwoCharLabel(s) ==> |s| == 2 || (|s| == 3 && s[2] == '\n')
    ensures IsTwoCharLabel(s) && !EndsWithNewline(s) ==> |s| == 2
  {
  }

  /** A longer lower-case namespace such as "default" fails the two-character pattern. */
  lemma DefaultIsNotTwoCharLabel()
    ensures LabelBody("default") && !IsTwoCharLabel("default")
  {
  }

  /** The `{1,62}` patterns bound a name to 2..63 characters, 64 with a final newline. */
  lemma BoundedLabelLength(s: string)
    ensures IsBoundedLabel(s) ==> 2 <= |s| <= 64
    ensures IsBoundedLabel(s) && !EndsWithNewline(s) ==> 2 <= |s| <= 63
    ensures IsBoundedLowerName(s) ==> 2 <= |s| <= 64
  {
  }

  /** Every lower-case name is also an identifier, so a valid workload name is a valid intercept name. */
  lemma LowerNameIsIdentifier(s: string)
    ensures IsLowerName(s) ==> IsIdentifier(s)
    ensures IsBoundedLowerName(s) ==> IsLowerName(s)
  {
  }

  /** An identifier never contains '{', so a value with a placeholder passes an identifier check only through the `\{\{` alternative. */
  lemma {:induction false} IdentifierHasNoPlaceholder(s: string)
    requires IdentifierBody(s)
    ensures !HasPlaceholder(s)
  {
    NoBraceNoPlaceholder(s);
  }

  lemma {:induction false} NoBraceNoPlaceholder(s: string)
    requires forall i :: 0 <= i < |s| ==> s[i] != '{'
    ensures !Contains(s, "{{")
    decreases |s|
  {
    if |s| > 0 {
      NoBraceNoPlaceholder(s[1..]);
      if |s| >= 2 { assert s[..2][0] == s[0]; }
    }
  }

  /** .NET's `$` lets a final newline through every anchored pattern. */
  lemma TrailingNewlineAccepted()
    ensures IsIdentifier("web\n") && IsLowerName("web\n") && IsLabel("web\n")
    ensures !IdentifierBody("web\n")
  {
    assert Chomp("web\n") == "web";
  }
}
