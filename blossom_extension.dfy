/** What the legacy `BlossomExtension` accumulates: global token
    replacements, the locations global replacements are limited to, and
    per-file token replacements. Both copies of the class (the
    `ninja.miserable` and the `net.ellune` package) are specified by these
    functions. */
module TokenStore {
  import opened Base

  /** Global replacements by token string; `None` is a `null` replacement. */
  type Globals = map<string, Option<string>>

  /** Per-file replacements: a set-valued multimap from a file's string form
      to single-entry token maps. */
  type PerFile = map<string, set<map<string, string>>>

  /** `put(token, replacement)`: the token's earlier value is overwritten. */
  function PutToken(g: Globals, token: string, replacement: Option<string>): (r: Globals)
    ensures r.Keys == g.Keys + {token} && r[token] == replacement
    ensures forall t | t in g && t != token :: r[t] == g[t]
  {
    g[token := replacement]
  }

  /** `g` is `g0` after putting the entries of `m` whose token is among
      `done`: each such non-null token holds its replacement, every other
      token keeps its value. */
  ghost predicate TokensPut(g0: Globals, m: map<Option<string>, Option<string>>, done: set<Option<string>>, g: Globals) {
    (forall t :: t in g <==> t in g0 || (Some(t) in m && Some(t) in done))
    && forall t | t in g :: g[t] == if Some(t) in m && Some(t) in done then m[Some(t)] else g0[t]
  }

  /** Putting no entry changes nothing. */
  lemma TokensPutNone(g0: Globals, m: map<Option<string>, Option<string>>)
    ensures TokensPut(g0, m, {}, g0)
  {
  }

  /** Putting one more non-null entry of `m` extends the entries put. */
  lemma TokensPutStep(g0: Globals, m: map<Option<string>, Option<string>>, done: set<Option<string>>, g: Globals,
                      k: Option<string>)
    requires TokensPut(g0, m, done, g) && k in m && k.Some? && k !in done
    ensures TokensPut(g0, m, done + {k}, PutToken(g, k.value, m[k]))
  {
  }

  /** Putting a map with a single non-null token is the single put, in
      both directions: the map form and the two-argument form agree. */
  lemma TokensPutSingle(g0: Globals, token: string, replacement: Option<string>, g: Globals)
    ensures TokensPut(g0, map[Some(token) := replacement], {Some(token)}, g) <==> g == PutToken(g0, token, replacement)
  {
    var m := map[Some(token) := replacement];
    if TokensPut(g0, m, {Some(token)}, g) {
      assert g.Keys == PutToken(g0, token, replacement).Keys;
    }
  }

  /** `add(location)`: appended, keeping order and duplicates. */
  function AddLocation(locations: seq<string>, location: string): (r: seq<string>)
    ensures |r| == |locations| + 1 && r[..|locations|] == locations && r[|locations|] == location
  {
    locations + [location]
  }

  /** `put(file, map)` on the set-valued multimap. */
  function AddPerFile(p: PerFile, file: string, entry: map<string, string>): (r: PerFile)
    ensures r.Keys == p.Keys + {file}
    ensures forall f, x :: (f in r && x in r[f]) <==> (f in p && x in p[f]) || (f == file && x == entry)
  {
    p[file := (if file in p then p[file] else {}) + {entry}]
  }

  /** Registering the same replacement for the same file twice stores it once. */
  lemma AddPerFileIdempotent(p: PerFile, file: string, entry: map<string, string>)
    ensures AddPerFile(AddPerFile(p, file, entry), file, entry) == AddPerFile(p, file, entry)
  {
    var once := AddPerFile(p, file, entry);
    assert once[file] + {entry} == once[file];
  }

  /** The order in which two per-file replacements are registered does not matter. */
  lemma AddPerFileCommutes(p: PerFile, f1: string, e1: map<string, string>, f2: string, e2: map<string, string>)
    ensures AddPerFile(AddPerFile(p, f1, e1), f2, e2) == AddPerFile(AddPerFile(p, f2, e2), f1, e1)
  {
    var l := AddPerFile(AddPerFile(p, f1, e1), f2, e2);
    var r := AddPerFile(AddPerFile(p, f2, e2), f1, e1);
    forall f | f in l ensures l[f] == r[f] {
      forall x ensures x in l[f] <==> x in r[f] {
      }
    }
  }
}

/** `ninja.miserable.blossom.BlossomExtension`. */
module MiserableBlossomExtension {
  import opened Base
  import opened TokenStore

  class BlossomExtension {
    var tokenReplacementsGlobal: Globals
    var tokenReplacementsGlobalLocations: seq<string>
    var tokenReplacementsByFile: PerFile

    constructor()
      ensures tokenReplacementsGlobal == map[] && tokenReplacementsGlobalLocations == [] && tokenReplacementsByFile == map[]
    {
      tokenReplacementsGlobal := map[];
      tokenReplacementsGlobalLocations := [];
      tokenReplacementsByFile := map[];
    }

    /** `replaceToken(token, replacement)`: stored under the token's string
        form; a `null` token fails with a NullPointerException. */
    method ReplaceToken(token: Option<string>, replacement: Option<string>) returns (r: Outcome)
      modifies this
      ensures token.None? ==> r == Fail(NullPointer) && tokenReplacementsGlobal == old(tokenReplacementsGlobal)
      ensures token.Some? ==> r == Pass && tokenReplacementsGlobal == PutToken(old(tokenReplacementsGlobal), token.value, replacement)
      ensures tokenReplacementsGlobalLocations == old(tokenReplacementsGlobalLocations)
      ensures tokenReplacementsByFile == old(tokenReplacementsByFile)
    {
      if token.None? {
        return Fail(NullPointer);
      }
      tokenReplacementsGlobal := PutToken(tokenReplacementsGlobal, token.value, replacement);
      r := Pass;
    }

    /** `replaceToken(map)`: the two-argument form for each entry, in the
        map's iteration order; a `null` token stops the loop with a
        NullPointerException after the entries visited before it. */
    method ReplaceTokens(m: map<Option<string>, Option<string>>) returns (r: Outcome)
      modifies this
      ensures None !in m ==> r == Pass && TokensPut(old(tokenReplacementsGlobal), m, m.Keys, tokenReplacementsGlobal)
      ensures None in m ==> (r == Fail(NullPointer)
        && exists done :: done <= m.Keys && TokensPut(old(tokenReplacementsGlobal), m, done, tokenReplacementsGlobal))
      ensures tokenReplacementsGlobalLocations == old(tokenReplacementsGlobalLocations)
      ensures tokenReplacementsByFile == old(tokenReplacementsByFile)
    {
      var keys := m.Keys;
      TokensPutNone(tokenReplacementsGlobal, m);
      while keys != {}
        invariant keys <= m.Keys
        invariant None in m ==> None in keys
        invariant TokensPut(old(tokenReplacementsGlobal), m, m.Keys - keys, tokenReplacementsGlobal)
        invariant tokenReplacementsGlobalLocations == old(tokenReplacementsGlobalLocations)
        invariant tokenReplacementsByFile == old(tokenReplacementsByFile)
        decreases |keys|
      {
        var key :| key in keys;
        if key.Some? {
          TokensPutStep(old(tokenReplacementsGlobal), m, m.Keys - keys, tokenReplacementsGlobal, key);
        }
        r := ReplaceToken(key, m[key]);
        if r.Fail? {
          assert m.Keys - keys <= m.Keys;
          return;
        }
        assert m.Keys - (keys - {key}) == (m.Keys - keys) + {key};
        keys := keys - {key};
      }
      assert m.Keys - keys == m.Keys;
      r := Pass;
    }

    /** `replaceTokenIn(location)`. */
    method ReplaceTokenIn(location: string)
      modifies this
      ensures tokenReplacementsGlobalLocations == AddLocation(old(tokenReplacementsGlobalLocations), location)
      ensures tokenReplacementsGlobal == old(tokenReplacementsGlobal)
      ensures tokenReplacementsByFile == old(tokenReplacementsByFile)
    {
      tokenReplacementsGlobalLocations := AddLocation(tokenReplacementsGlobalLocations, location);
    }

    /** `replaceToken(token, replacement, file)`: a single-entry map under
        the file's string form; a `null` argument fails with a
        NullPointerException (`toString` on a null token or file, or the
        immutable map refusing a null value). */
    method ReplaceTokenInFile(token: Option<string>, replacement: Option<string>, file: Option<string>)
      returns (r: Outcome)
      modifies this
      ensures token.None? || replacement.None? || file.None? ==>
        r == Fail(NullPointer) && tokenReplacementsByFile == old(tokenReplacementsByFile)
      ensures token.Some? && replacement.Some? && file.Some? ==> (r == Pass &&
        tokenReplacementsByFile == AddPerFile(old(tokenReplacementsByFile), file.value, map[token.value := replacement.value]))
      ensures tokenReplacementsGlobal == old(tokenReplacementsGlobal)
      ensures tokenReplacementsGlobalLocations == old(tokenReplacementsGlobalLocations)
    {
      if token.None? || replacement.None? || file.None? {
        return Fail(NullPointer);
      }
      tokenReplacementsByFile := AddPerFile(tokenReplacementsByFile, file.value, map[token.value := replacement.value]);
      r := Pass;
    }

    /** `getTokenReplacementsGlobal`. */
    function GetTokenReplacementsGlobal(): Globals
      reads this
    {
      tokenReplacementsGlobal
    }

    /** `getTokenReplacementsGlobalLocations`. */
    function GetTokenReplacementsGlobalLocations(): seq<string>
      reads this
    {
      tokenReplacementsGlobalLocations
    }

    /** `getTokenReplacementsByFile`. */
    function GetTokenReplacementsByFile(): PerFile
      reads this
    {
      tokenReplacementsByFile
    }
  }
}

/** `net.ellune.blossom.BlossomExtension`, the same accumulator. */
module ElluneBlossomExtension {
  import opened Base
  import opened TokenStore

  class BlossomExtension {
    var tokenReplacementsGlobal: Globals
    var tokenReplacementsGlobalLocations: seq<string>
    var tokenReplacementsByFile: PerFile

    constructor()
      ensures tokenReplacementsGlobal == map[] && tokenReplacementsGlobalLocations == [] && tokenReplacementsByFile == map[]
    {
      tokenReplacementsGlobal := map[];
      tokenReplacementsGlobalLocations := [];
      tokenReplacementsByFile := map[];
    }

    /** `replaceToken(token, replacement)`. */
    method ReplaceToken(token: Option<string>, replacement: Option<string>) returns (r: Outcome)
      modifies this
      ensures token.None? ==> r == Fail(NullPointer) && tokenReplacementsGlobal == old(tokenReplacementsGlobal)
      ensures token.Some? ==> r == Pass && tokenReplacementsGlobal == PutToken(old(tokenReplacementsGlobal), token.value, replacement)
      ensures tokenReplacementsGlobalLocations == old(tokenReplacementsGlobalLocations)
      ensures tokenReplacementsByFile == old(tokenReplacementsByFile)
    {
      if token.None? {
        return Fail(NullPointer);
      }
      tokenReplacementsGlobal := PutToken(tokenReplacementsGlobal, token.value, replacement);
      r := Pass;
    }

    /** `replaceToken(map)`. */
    method ReplaceTokens(m: map<Option<string>, Option<string>>) returns (r: Outcome)
      modifies this
      ensures None !in m ==> r == Pass && TokensPut(old(tokenReplacementsGlobal), m, m.Keys, tokenReplacementsGlobal)
      ensures None in m ==> (r == Fail(NullPointer)
        && exists done :: done <= m.Keys && TokensPut(old(tokenReplacementsGlobal), m, done, tokenReplacementsGlobal))
      ensures tokenReplacementsGlobalLocations == old(tokenReplacementsGlobalLocations)
      ensures tokenReplacementsByFile == old(tokenReplacementsByFile)
    {
      var keys := m.Keys;
      TokensPutNone(tokenReplacementsGlobal, m);
      while keys != {}
        invariant keys <= m.Keys
        invariant None in m ==> None in keys
        invariant TokensPut(old(tokenReplacementsGlobal), m, m.Keys - keys, tokenReplacementsGlobal)
        invariant tokenReplacementsGlobalLocations == old(tokenReplacementsGlobalLocations)
        invariant tokenReplacementsByFile == old(tokenReplacementsByFile)
        decreases |keys|
      {
        var key :| key in keys;
        if key.Some? {
          TokensPutStep(old(tokenReplacementsGlobal), m, m.Keys - keys, tokenReplacementsGlobal, key);
        }
        r := ReplaceToken(key, m[key]);
        if r.Fail? {
          assert m.Keys - keys <= m.Keys;
          return;
        }
        assert m.Keys - (keys - {key}) == (m.Keys - keys) + {key};
        keys := keys - {key};
      }
      assert m.Keys - keys == m.Keys;
      r := Pass;
    }

    /** `replaceTokenIn(location)`. */
    method ReplaceTokenIn(location: string)
      modifies this
      ensures tokenReplacementsGlobalLocations == AddLocation(old(tokenReplacementsGlobalLocations), location)
      ensures tokenReplacementsGlobal == old(tokenReplacementsGlobal)
      ensures tokenReplacementsByFile == old(tokenReplacementsByFile)
    {
      tokenReplacementsGlobalLocations := AddLocation(tokenReplacementsGlobalLocations, location);
    }

    /** `replaceToken(token, replacement, file)`. */
    method ReplaceTokenInFile(token: Option<string>, replacement: Option<string>, file: Option<string>)
      returns (r: Outcome)
      modifies this
      ensures token.None? || replacement.None? || file.None? ==>
        r == Fail(NullPointer) && tokenReplacementsByFile == old(tokenReplacementsByFile)
      ensures token.Some? && replacement.Some? && file.Some? ==> (r == Pass &&
        tokenReplacementsByFile == AddPerFile(old(tokenReplacementsByFile), file.value, map[token.value := replacement.value]))
      ensures tokenReplacementsGlobal == old(tokenReplacementsGlobal)
      ensures tokenReplacementsGlobalLocations == old(tokenReplacementsGlobalLocations)
    {
      if token.None? || replacement.None? || file.None? {
        return Fail(NullPointer);
      }
      tokenReplacementsByFile := AddPerFile(tokenReplacementsByFile, file.value, map[token.value := replacement.value]);
      r := Pass;
    }

    /** `getTokenReplacementsGlobal`. */
    function GetTokenReplacementsGlobal(): Globals
      reads this
    {
      tokenReplacementsGlobal
    }

    /** `getTokenReplacementsGlobalLocations`. */
    function GetTokenReplacementsGlobalLocations(): seq<string>
      reads this
    {
      tokenReplacementsGlobalLocations
    }

    /** `getTokenReplacementsByFile`. */
    function GetTokenReplacementsByFile(): PerFile
      reads this
    {
      tokenReplacementsByFile
    }
  }
}
