/** Values shared by every part of the model: optional values, the failures the
    plugin raises, and a result type that carries either a value or a failure. */
module Base {

  /** A value that may be absent; `None` stands for Java's `null`. */
  datatype Option<+T> = None | Some(value: T)

  /** The exceptions raised by the modelled code, one constructor per cause.
      The comment on each names the Java exception class and its message. */
  datatype Error =
      /** InvalidUserDataException: "Template data files must have a mapping as the root node" */
    | RootNotMapping
      /** InvalidUserDataException: "value of 'variants' entry must be a mapping of String to Map<String, Object>" */
    | VariantsNotMapping
      /** InvalidUserDataException: "Variant '<name>' was expected to have a mapping value, but it was a <class>" */
    | VariantNotMapping(variant: string)
      /** InvalidUserDataException: "Invalid input in <file>" (the YAML parser refused the text) */
    | InvalidInput(file: string)
      /** InvalidUserDataException: "Unknown variants declared in file for template set <set>: <names>" */
    | UnknownVariants(setName: string, names: set<string>)
      /** InvalidUserDataException: "Output file <output> (a variant of input <template>) has already been written in another variant!" */
    | DuplicateOutput(output: string, template: string)
      /** GradleException: "Failed to load data from <file>" */
    | LoadFailed(file: string)
      /** GradleException: "No sources directories declared!" */
    | NoSources
      /** GradleException: "Failed to process templates:<detail>" */
    | ProcessingFailed(detail: string)
      /** GradleException raised when a language is set on an unclaimed template set */
    | NotClaimed
      /** GradleException: "The extension '<ext>' on source set '<set> was supposed to be a SourceDirectorySet, but instead it was a <class>" */
    | NotSourceDirectorySet(extension: string, sourceSet: string, className: string)
      /** UnknownDomainObjectException from looking up a missing source-set extension */
    | UnknownExtension(extension: string)
      /** LoaderException: "Could not find template "<name>" in any of: <directories>" */
    | TemplateNotFound(template: string, searched: string)
      /** UnsupportedOperationException: "Not used by Blossom" */
    | Unsupported
      /** NullPointerException */
    | NullPointer
      /** StringIndexOutOfBoundsException for the given index */
    | IndexOutOfBounds(index: int)
      /** A failure reported by the template engine (syntax error, undefined variable) */
    | Engine(detail: string)
      /** An IOException with the given message */
    | Io(detail: string)

  /** Either a value or the exception that aborted the computation. */
  datatype Result<+T> = Ok(value: T) | Err(error: Error) {
    predicate IsFailure() { Err? }

    function PropagateFailure<U>(): Result<U>
      requires Err?
    {
      Err(error)
    }

    function Extract(): T
      requires Ok?
    {
      value
    }
  }

  /** The outcome of an operation that returns nothing. */
  datatype Outcome = Pass | Fail(error: Error) {
    predicate IsFailure() { Fail? }

    function PropagateFailure(): Outcome
      requires Fail?
    {
      this
    }
  }
}

/** Java string operations used by the plugin, on `seq<char>`. */
module Strings {

  predicate StartsWith(s: string, prefix: string) {
    |prefix| <= |s| && s[..|prefix|] == prefix
  }

  predicate EndsWith(s: string, suffix: string) {
    |suffix| <= |s| && s[|s| - |suffix|..] == suffix
  }

  /** `t` occurs in `s` at position `i`. */
  predicate OccursAt(s: string, t: string, i: nat) {
    i + |t| <= |s| && s[i..i + |t|] == t
  }

  predicate Contains(s: string, t: string) {
    exists i: nat | i <= |s| :: OccursAt(s, t, i)
  }

  /** The parts joined with `sep` between neighbours (Collectors.joining). */
  function Join(parts: seq<string>, sep: string): string {
    if |parts| == 0 then ""
    else if |parts| == 1 then parts[0]
    else parts[0] + sep + Join(parts[1..], sep)
  }

  /** String.replace(char, char): every `c` becomes `d`. */
  function ReplaceChar(s: string, c: char, d: char): (r: string)
    ensures |r| == |s|
    ensures forall i :: 0 <= i < |s| ==> r[i] == if s[i] == c then d else s[i]
  {
    if |s| == 0 then "" else [if s[0] == c then d else s[0]] + ReplaceChar(s[1..], c, d)
  }

  /** String.replace(CharSequence, CharSequence), and equally replaceAll with a
      quoted pattern and a replacement free of '$' and '\': occurrences of `t`
      are replaced from left to right without overlapping; an empty `t` matches
      before every character and at the end. */
  function ReplaceAll(s: string, t: string, r: string): string
    decreases |s|
  {
    if |t| == 0 then InsertEverywhere(s, r)
    else if |s| < |t| then s
    else if s[..|t|] == t then r + ReplaceAll(s[|t|..], t, r)
    else [s[0]] + ReplaceAll(s[1..], t, r)
  }

  /** What replacing the empty string does: `r` before every character and at the end. */
  function InsertEverywhere(s: string, r: string): string {
    if |s| == 0 then r else r + [s[0]] + InsertEverywhere(s[1..], r)
  }

  /** Replacing a token that does not occur leaves the text unchanged. */
  lemma {:induction false} ReplaceAllAbsent(s: string, t: string, r: string)
    requires |t| > 0 && !Contains(s, t)
    ensures ReplaceAll(s, t, r) == s
    decreases |s|
  {
    if |s| >= |t| {
      assert !OccursAt(s, t, 0);
      forall i: nat ensures !OccursAt(s[1..], t, i) {
        assert !OccursAt(s, t, i + 1);
        if i + |t| <= |s| - 1 {
          TailSlice(s, i, |t|);
        }
      }
      ReplaceAllAbsent(s[1..], t, r);
    }
  }

  /** A slice of the tail is the slice of the text one further on. */
  lemma TailSlice(s: string, i: nat, n: nat)
    requires i + n <= |s| - 1
    ensures s[1..][i..i + n] == s[i + 1..i + 1 + n]
  {
  }

  /** Replacing a token by itself leaves the text unchanged. */
  lemma {:induction false} ReplaceAllSelf(s: string, t: string)
    ensures ReplaceAll(s, t, t) == s
    decreases |s|
  {
    if |t| == 0 {
      InsertNothing(s);
    } else if |s| < |t| {
    } else if s[..|t|] == t {
      ReplaceAllSelf(s[|t|..], t);
      assert s == s[..|t|] + s[|t|..];
    } else {
      ReplaceAllSelf(s[1..], t);
      assert s == [s[0]] + s[1..];
    }
  }

  lemma {:induction false} InsertNothing(s: string)
    ensures InsertEverywhere(s, "") == s
  {
    if |s| > 0 {
      InsertNothing(s[1..]);
      assert s == [s[0]] + s[1..];
    }
  }

  /** Replacing the empty string puts `r` in |s| + 1 places. */
  lemma {:induction false} InsertEverywhereLength(s: string, r: string)
    ensures |InsertEverywhere(s, r)| == |s| + (|s| + 1) * |r|
  {
    if |s| > 0 {
      InsertEverywhereLength(s[1..], r);
    }
  }
}
