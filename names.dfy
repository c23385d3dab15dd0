/**
 * Name normalisation (`formatNames`) and the small string helpers the
 * filesystem uses on names: Python's `str.replace`, character removal,
 * `lower()`, `strip()` and `split()`.
 */
module Names {

  /** Python's `s.replace(pat, rep)`: every non-overlapping occurrence of
      `pat`, scanning from the left, is replaced by `rep`. */
  function Replace(s: string, pat: string, rep: string): string
    requires pat != []
    decreases |s|
  {
    if |s| < |pat| then s
    else if s[..|pat|] == pat then rep + Replace(s[|pat|..], pat, rep)
    else [s[0]] + Replace(s[1..], pat, rep)
  }

  /** `re.sub("[...]", '', s)`: drop every character of the class. */
  function RemoveChars(s: string, bad: set<char>): string
  {
    if s == [] then []
    else (if s[0] in bad then [] else [s[0]]) + RemoveChars(s[1..], bad)
  }

  /** The characters `formatNames` deletes outright. */
  const Dropped: set<char> := {'?', '"', '`'}

  /** The characters that can never appear in a formatted name. */
  const Unsafe: set<char> := {'/', ':', '?', '"', '`'}

  /** `formatNames` (gmusicfs.py, the 556157a side): `": "` becomes `" - "`,
      any other `:` becomes `-`, `/` becomes `-`, and `?`, `"` and a
      backquote are removed. */
  function FormatNames(s: string): string
  {
    RemoveChars(Replace(Replace(Replace(s, ": ", " - "), ":", "-"), "/", "-"), Dropped)
  }

  // ---------------------------------------------------------------------
  // Facts about Replace and RemoveChars

  /** Every character of a replacement result comes from the input or from
      the replacement text. */
  lemma {:induction false} ReplaceOrigin(s: string, pat: string, rep: string, c: char)
    requires pat != []
    requires c in Replace(s, pat, rep)
    ensures c in s || c in rep
    decreases |s|
  {
    if |s| < |pat| {
    } else if s[..|pat|] == pat {
      if c !in rep {
        ReplaceOrigin(s[|pat|..], pat, rep, c);
      }
    } else {
      if c != s[0] {
        ReplaceOrigin(s[1..], pat, rep, c);
      }
    }
  }

  /** A character that is not part of the pattern survives the replacement. */
  lemma {:induction false} ReplaceKeeps(s: string, pat: string, rep: string, c: char)
    requires pat != []
    requires c in s && c !in pat
    ensures c in Replace(s, pat, rep)
    decreases |s|
  {
    if |s| < |pat| {
    } else if s[..|pat|] == pat {
      var k :| 0 <= k < |s| && s[k] == c;
      assert forall j :: 0 <= j < |pat| ==> s[j] == pat[j];
      assert k >= |pat|;
      assert s[|pat|..][k - |pat|] == c;
      ReplaceKeeps(s[|pat|..], pat, rep, c);
    } else if s[0] != c {
      var k :| 0 <= k < |s| && s[k] == c;
      assert s[1..][k - 1] == c;
      ReplaceKeeps(s[1..], pat, rep, c);
    }
  }

  /** A one-character pattern that the replacement does not reintroduce is
      gone from the result. */
  lemma {:induction false} ReplaceRemovesChar(s: string, pat: string, rep: string)
    requires |pat| == 1 && pat[0] !in rep
    ensures pat[0] !in Replace(s, pat, rep)
  {
    if pat[0] in Replace(s, pat, rep) {
      ReplaceOrigin(s, pat, rep, pat[0]);
      ReplaceNoStart(s, pat, rep);
    }
  }

  /** Helper for ReplaceRemovesChar: a one-character pattern never survives
      in the copied part. */
  lemma {:induction false} ReplaceNoStart(s: string, pat: string, rep: string)
    requires |pat| == 1 && pat[0] !in rep
    ensures pat[0] !in Replace(s, pat, rep)
    decreases |s|
  {
    if |s| < |pat| {
    } else if s[..|pat|] == pat {
      ReplaceNoStart(s[|pat|..], pat, rep);
    } else {
      assert s[0] != pat[0];
      ReplaceNoStart(s[1..], pat, rep);
    }
  }

  /** When the first character of the pattern does not occur, nothing is
      replaced. */
  lemma {:induction false} ReplaceIdentity(s: string, pat: string, rep: string)
    requires pat != [] && pat[0] !in s
    ensures Replace(s, pat, rep) == s
    decreases |s|
  {
    if |s| >= |pat| {
      assert s[..|pat|][0] == s[0];
      ReplaceIdentity(s[1..], pat, rep);
    }
  }

  /** A string in which the pattern does not occur is left as it is. */
  lemma {:induction false} ReplaceAbsent(s: string, pat: string, rep: string)
    requires pat != [] && !Contains(s, pat)
    ensures Replace(s, pat, rep) == s
    decreases |s|
  {
    if |s| >= |pat| {
      assert !OccursAt(s, pat, 0);
      assert !Contains(s[1..], pat) by {
        forall k | 0 <= k <= |s[1..]| - |pat| ensures !OccursAt(s[1..], pat, k) {
          assert s[1..][k..k + |pat|] == s[k + 1..k + 1 + |pat|];
          assert !OccursAt(s, pat, k + 1);
        }
      }
      ReplaceAbsent(s[1..], pat, rep);
    }
  }

  /** A prefix without the pattern's first character passes through. */
  lemma {:induction false} ReplacePrefix(p: string, s: string, pat: string, rep: string)
    requires pat != [] && pat[0] !in p
    ensures Replace(p + s, pat, rep) == p + Replace(s, pat, rep)
    decreases |p|
  {
    if p == [] {
      assert p + s == s;
    } else {
      var ps := p + s;
      if |ps| < |pat| {
        assert Replace(s, pat, rep) == s;
        assert Replace(ps, pat, rep) == ps;
      } else {
        assert ps[..|pat|][0] == p[0] != pat[0];
        assert ps[0] == p[0];
        assert ps[1..] == p[1..] + s;
        calc {
          Replace(ps, pat, rep);
          [p[0]] + Replace(p[1..] + s, pat, rep);
          { ReplacePrefix(p[1..], s, pat, rep); }
          [p[0]] + (p[1..] + Replace(s, pat, rep));
          { assert p == [p[0]] + p[1..]; }
          p + Replace(s, pat, rep);
        }
      }
    }
  }

  /** A match of a pattern that shares no character with `q` cannot run
      from `s` into `q`. */
  lemma MatchStaysLeft(s: string, q: string, pat: string)
    requires pat != []
    requires forall c :: c in q ==> c !in pat
    ensures |pat| <= |s + q| && (s + q)[..|pat|] == pat ==> |pat| <= |s|
  {
    if |s| < |pat| <= |s + q| {
      assert (s + q)[..|pat|][|s|] == q[0];
      assert q[0] in q;
    }
  }

  /** A suffix none of whose characters belongs to the pattern passes
      through. */
  lemma {:induction false} ReplaceSuffix(s: string, q: string, pat: string, rep: string)
    requires pat != []
    requires forall c :: c in q ==> c !in pat
    ensures Replace(s + q, pat, rep) == Replace(s, pat, rep) + q
    decreases |s|
  {
    var sq := s + q;
    MatchStaysLeft(s, q, pat);
    if |sq| < |pat| {
      assert Replace(s, pat, rep) == s;
    } else if sq[..|pat|] == pat {
      assert s[..|pat|] == sq[..|pat|];
      assert sq[|pat|..] == s[|pat|..] + q;
      ReplaceSuffix(s[|pat|..], q, pat, rep);
    } else if s == [] {
      assert sq == q;
      assert pat[0] !in q;
      ReplaceIdentity(q, pat, rep);
    } else {
      assert sq[1..] == s[1..] + q;
      assert sq[0] == s[0];
      ReplaceSuffix(s[1..], q, pat, rep);
      if |s| >= |pat| {
        assert s[..|pat|] == sq[..|pat|];
      } else {
        assert Replace(s, pat, rep) == s;
        assert Replace(s[1..], pat, rep) == s[1..];
        assert s == [s[0]] + s[1..];
      }
    }
  }

  lemma {:induction false} RemoveCharsMembership(s: string, bad: set<char>, c: char)
    ensures c in RemoveChars(s, bad) <==> c in s && c !in bad
  {
    if s != [] {
      RemoveCharsMembership(s[1..], bad, c);
      assert s == [s[0]] + s[1..];
    }
  }

  lemma {:induction false} RemoveCharsIdentity(s: string, bad: set<char>)
    requires forall c :: c in s ==> c !in bad
    ensures RemoveChars(s, bad) == s
  {
    if s != [] {
      RemoveCharsIdentity(s[1..], bad);
    }
  }

  lemma {:induction false} RemoveCharsConcat(a: string, b: string, bad: set<char>)
    ensures RemoveChars(a + b, bad) == RemoveChars(a, bad) + RemoveChars(b, bad)
  {
    if a == [] {
      assert a + b == b;
    } else {
      assert (a + b)[0] == a[0];
      assert (a + b)[1..] == a[1..] + b;
      RemoveCharsConcat(a[1..], b, bad);
      var h := if a[0] in bad then [] else [a[0]];
      calc {
        RemoveChars(a + b, bad);
        h + RemoveChars(a[1..] + b, bad);
        h + (RemoveChars(a[1..], bad) + RemoveChars(b, bad));
        (h + RemoveChars(a[1..], bad)) + RemoveChars(b, bad);
      }
    }
  }

  // ---------------------------------------------------------------------
  // Properties of formatNames

  /** A formatted name holds no `/`, `:`, `?`, `"` or backquote. */
  lemma FormatNamesSafe(s: string)
    ensures forall c :: c in FormatNames(s) ==> c !in Unsafe
  {
    var a := Replace(s, ": ", " - ");
    var b := Replace(a, ":", "-");
    var d := Replace(b, "/", "-");
    ReplaceRemovesChar(a, ":", "-");
    ReplaceRemovesChar(b, "/", "-");
    forall c | c in FormatNames(s)
      ensures c !in Unsafe
    {
      RemoveCharsMembership(d, Dropped, c);
      if c == ':' {
        ReplaceOrigin(b, "/", "-", c);
      }
    }
  }

  /** formatNames is idempotent: a formatted name is its own format. */
  lemma FormatNamesIdempotent(s: string)
    ensures FormatNames(FormatNames(s)) == FormatNames(s)
  {
    var t := FormatNames(s);
    FormatNamesSafe(s);
    ReplaceIdentity(t, ": ", " - ");
    ReplaceIdentity(t, ":", "-");
    ReplaceIdentity(t, "/", "-");
    RemoveCharsIdentity(t, Dropped);
  }

  /** A character outside every pattern and outside the deleted class
      survives formatting. */
  lemma FormatNamesKeeps(s: string, c: char)
    requires c in s && c !in Unsafe && c != ' '
    ensures c in FormatNames(s)
  {
    var a := Replace(s, ": ", " - ");
    var b := Replace(a, ":", "-");
    var d := Replace(b, "/", "-");
    ReplaceKeeps(s, ": ", " - ", c);
    ReplaceKeeps(a, ":", "-", c);
    ReplaceKeeps(b, "/", "-", c);
    RemoveCharsMembership(d, Dropped, c);
  }

  /** Characters that no step of formatNames touches. */
  ghost predicate Inert(q: string)
  {
    forall c :: c in q ==> c !in Unsafe && c != ' '
  }

  /** Formatting a name framed by a prefix with no special characters and an
      inert suffix formats only the middle part. */
  lemma FormatNamesFrame(p: string, s: string, q: string)
    requires forall c :: c in p ==> c !in Unsafe
    requires Inert(q)
    ensures FormatNames(p + s + q) == p + FormatNames(s) + q
  {
    var a := Replace(s, ": ", " - ");
    var b := Replace(a, ":", "-");
    var d := Replace(b, "/", "-");
    calc {
      Replace(p + s + q, ": ", " - ");
      { assert p + s + q == p + (s + q); ReplacePrefix(p, s + q, ": ", " - "); }
      p + Replace(s + q, ": ", " - ");
      { ReplaceSuffix(s, q, ": ", " - "); }
      p + (a + q);
    }
    calc {
      Replace(p + (a + q), ":", "-");
      { ReplacePrefix(p, a + q, ":", "-"); }
      p + Replace(a + q, ":", "-");
      { ReplaceSuffix(a, q, ":", "-"); }
      p + (b + q);
    }
    calc {
      Replace(p + (b + q), "/", "-");
      { ReplacePrefix(p, b + q, "/", "-"); }
      p + Replace(b + q, "/", "-");
      { ReplaceSuffix(b, q, "/", "-"); }
      p + (d + q);
    }
    RemoveCharsConcat(p, d + q, Dropped);
    RemoveCharsConcat(d, q, Dropped);
    RemoveCharsIdentity(p, Dropped);
    RemoveCharsIdentity(q, Dropped);
    assert p + (d + q) == p + d + q;
  }

  // ---------------------------------------------------------------------
  // lower(), strip(), split()

  /** ASCII lower-casing of one character. */
  function LowerChar(c: char): char
  {
    if 'A' <= c <= 'Z' then (c as int + 32) as char else c
  }

  /** `s.lower()` on ASCII letters. */
  function Lower(s: string): string
  {
    seq(|s|, i requires 0 <= i < |s| => LowerChar(s[i]))
  }

  /** The characters `str.strip()` removes. */
  const Whitespace: set<char> := {' ', '\t', '\n', '\r', '\U{B}', '\U{C}'}

  function StripLeft(s: string): string
    decreases |s|
  {
    if s != [] && s[0] in Whitespace then StripLeft(s[1..]) else s
  }

  function StripRight(s: string): string
    decreases |s|
  {
    if s != [] && s[|s| - 1] in Whitespace then StripRight(s[..|s| - 1]) else s
  }

  /** `s.strip()`: remove leading and trailing whitespace. */
  function Strip(s: string): string
  {
    StripRight(StripLeft(s))
  }

  /** `s.startswith(p)`. */
  predicate StartsWith(s: string, p: string)
  {
    |p| <= |s| && s[..|p|] == p
  }

  /** `s.endswith(q)`. */
  predicate EndsWith(s: string, q: string)
  {
    |q| <= |s| && s[|s| - |q|..] == q
  }

  /** `pat in s` for a non-empty pattern. */
  predicate Contains(s: string, pat: string)
  {
    exists k | 0 <= k <= |s| - |pat| :: OccursAt(s, pat, k)
  }

  /** `pat` occurs in `s` starting at position `k`. */
  predicate OccursAt(s: string, pat: string, k: int)
  {
    0 <= k <= |s| - |pat| && s[k..k + |pat|] == pat
  }

  /** `s.split(sep)` for a one-character separator: the pieces between
      separators, including empty ones. */
  function Split(s: string, sep: char): (parts: seq<string>)
    ensures parts != []
    decreases |s|
  {
    if s == [] then [""]
    else
      var rest := Split(s[1..], sep);
      if s[0] == sep then [""] + rest
      else [[s[0]] + rest[0]] + rest[1..]
  }

  /** A piece free of the separator, then the separator, splits off as the
      first part. */
  lemma {:induction false} SplitCons(head: string, sep: char, rest: string)
    requires sep !in head
    ensures Split(head + [sep] + rest, sep) == [head] + Split(rest, sep)
    decreases |head|
  {
    var s := head + [sep] + rest;
    if head == [] {
      assert s == [sep] + rest;
      assert s[1..] == rest;
    } else {
      assert s[1..] == head[1..] + [sep] + rest;
      SplitCons(head[1..], sep, rest);
      assert [head[0]] + head[1..] == head;
    }
  }

  /** A string free of the separator is a single part. */
  lemma {:induction false} SplitNone(s: string, sep: char)
    requires sep !in s
    ensures Split(s, sep) == [s]
    decreases |s|
  {
    if s != [] {
      SplitNone(s[1..], sep);
      assert [s[0]] + s[1..] == s;
    }
  }

  /** Lower-casing twice is lower-casing once. */
  lemma LowerIdempotent(s: string)
    ensures Lower(Lower(s)) == Lower(s)
  {
    forall i | 0 <= i < |s| ensures Lower(Lower(s))[i] == Lower(s)[i] {
      var c := s[i];
      if 'A' <= c <= 'Z' {
        assert 'a' <= LowerChar(c) <= 'z';
      }
    }
  }

  /** `lower()` distributes over concatenation. */
  lemma LowerConcat(a: string, b: string)
    ensures Lower(a + b) == Lower(a) + Lower(b)
  {
  }

  /** `lower()` neither creates nor removes a `/`. */
  lemma LowerSlash(s: string)
    ensures '/' in Lower(s) <==> '/' in s
  {
    if '/' in Lower(s) {
      var i :| 0 <= i < |s| && Lower(s)[i] == '/';
      assert s[i] == '/';
    }
    if '/' in s {
      var i :| 0 <= i < |s| && s[i] == '/';
      assert Lower(s)[i] == '/';
    }
  }

  /** `sep.join(parts)`. */
  function Join(parts: seq<string>, sep: char): string
  {
    if parts == [] then []
    else if |parts| == 1 then parts[0]
    else parts[0] + [sep] + Join(parts[1..], sep)
  }

  /** Splitting and joining again gives the original string back, and no
      piece holds the separator. */
  lemma {:induction false} SplitJoin(s: string, sep: char)
    ensures Join(Split(s, sep), sep) == s
    ensures forall i :: 0 <= i < |Split(s, sep)| ==> sep !in Split(s, sep)[i]
    decreases |s|
  {
    if s != [] {
      SplitJoin(s[1..], sep);
      SplitJoinStep(s, sep);
    }
  }

  /** The inductive step of `SplitJoin`: the first character joins the
      first part, or starts a new one when it is the separator. */
  lemma SplitJoinStep(s: string, sep: char)
    requires s != []
    requires Join(Split(s[1..], sep), sep) == s[1..]
    requires forall i :: 0 <= i < |Split(s[1..], sep)| ==> sep !in Split(s[1..], sep)[i]
    ensures Join(Split(s, sep), sep) == s
    ensures forall i :: 0 <= i < |Split(s, sep)| ==> sep !in Split(s, sep)[i]
  {
    var rest := Split(s[1..], sep);
    var parts := Split(s, sep);
    assert s == [s[0]] + s[1..];
    if s[0] == sep {
      assert parts == [""] + rest;
      assert parts[1..] == rest;
      assert Join(parts, sep) == "" + [sep] + Join(rest, sep);
      forall i | 0 <= i < |parts| ensures sep !in parts[i] {
        if i > 0 { assert parts[i] == rest[i - 1]; }
      }
    } else {
      assert parts[0] == [s[0]] + rest[0];
      assert parts[1..] == rest[1..];
      if |rest| == 1 {
        assert Join(parts, sep) == [s[0]] + rest[0];
      } else {
        assert Join(rest, sep) == rest[0] + [sep] + Join(rest[1..], sep);
        assert Join(parts, sep) == [s[0]] + rest[0] + [sep] + Join(rest[1..], sep);
      }
      forall i | 0 <= i < |parts| ensures sep !in parts[i] {
        if i > 0 { assert parts[i] == rest[i]; }
      }
    }
  }
}
