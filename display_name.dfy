/** The display-name rule of the test suite (`BlossomDisplayNameGeneration`):
    a test method `testSomeThing` is shown as `someThing`. */
module BlossomDisplayNameGeneration {
  import opened Strings

  /** The capitals `Character.toLowerCase` maps within Latin-1: 'A'..'Z'
      and U+00C0..U+00DE except the multiplication sign U+00D7. */
  predicate Capital(c: char) {
    'A' <= c <= 'Z' || ('\U{C0}' <= c <= '\U{DE}' && c != '\U{D7}')
  }

  /** Their lower-case forms, 32 code points above. */
  predicate Small(c: char) {
    'a' <= c <= 'z' || ('\U{E0}' <= c <= '\U{FE}' && c != '\U{F7}')
  }

  /** `Character.toLowerCase` on Latin-1: a capital becomes its small
      letter; other characters are returned unchanged. */
  function ToLowerCase(c: char): (d: char)
    ensures Capital(c) ==> Small(d) && d as int == c as int + 32
    ensures 'A' <= c <= 'Z' ==> 'a' <= d <= 'z'
    ensures !Capital(c) ==> d == c
  {
    if Capital(c) then (c as int + 32) as char else c
  }

  /** `Character.toUpperCase` on the small letters above, the inverse of
      `ToLowerCase` on them. */
  function ToUpperCase(c: char): (d: char)
    ensures Small(c) ==> Capital(d) && ToLowerCase(d) == c
    ensures !Small(c) ==> d == c
  {
    if Small(c) then (c as int - 32) as char else c
  }

  /** `generateDisplayNameForMethod`: a name longer than five characters
      that starts with "test" loses that prefix and has its next character
      lower-cased; any other name is kept. */
  function GenerateDisplayNameForMethod(name: string): (r: string)
    ensures StartsWith(name, "test") && |name| > 5 ==> |r| == |name| - 4 && r[1..] == name[5..]
    ensures !(StartsWith(name, "test") && |name| > 5) ==> r == name
  {
    if StartsWith(name, "test") && |name| > 5 then [ToLowerCase(name[4])] + name[5..] else name
  }

  /** A rewritten name begins with the lower-case form of the character
      after "test", and nothing else of the name is changed. */
  lemma RewrittenName(rest: string, c: char)
    requires |rest| > 0
    ensures GenerateDisplayNameForMethod("test" + [c] + rest) == [ToLowerCase(c)] + rest
  {
    var name := "test" + [c] + rest;
    assert name[..4] == "test";
    assert name[4] == c && name[5..] == rest;
  }

  /** Putting "test" back and upper-casing the first letter recovers a test
      method named in camel case. */
  lemma DisplayNameInverse(rest: string, c: char)
    requires |rest| > 0 && Capital(c)
    ensures var r := GenerateDisplayNameForMethod("test" + [c] + rest);
      "test" + [ToUpperCase(r[0])] + r[1..] == "test" + [c] + rest
  {
    RewrittenName(rest, c);
  }

  /** A five-character name such as "testA" is kept as it is. */
  lemma FiveCharactersKept()
    ensures GenerateDisplayNameForMethod("testA") == "testA"
  {
  }

  /** "testSourceSingleSet" is shown as "sourceSingleSet". */
  lemma SourceSingleSetExample()
    ensures GenerateDisplayNameForMethod("testSourceSingleSet") == "sourceSingleSet"
  {
    var name := "testSourceSingleSet";
    assert name[..4] == "test";
    assert name[4] == 'S' && ToLowerCase('S') == 's';
    assert name[5..] == "ourceSingleSet";
    assert ['s'] + "ourceSingleSet" == "sourceSingleSet";
  }

  /** "testÉtat" is shown as "état": the accented capital is lower-cased too. */
  lemma AccentedExample()
    ensures GenerateDisplayNameForMethod("test\U{C9}tat") == "\U{E9}tat"
  {
    var name := "test\U{C9}tat";
    assert name[..4] == "test";
    assert name[4] == '\U{C9}' && ToLowerCase('\U{C9}') == '\U{E9}';
    assert name[5..] == "tat";
    assert ['\U{E9}'] + "tat" == "\U{E9}tat";
  }
}
