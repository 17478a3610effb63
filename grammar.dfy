/**
 * The string grammars of the companion: `RE_IMPORT_STRING`,
 * `RE_RESOLVE_STRING`, Python's `str.split` and what `eval` accepts as a
 * dotted name. Each regular expression is written as the automaton that
 * `re.fullmatch` runs and is proved equal to a structural grammar built
 * from `str.split`.
 */
module Grammar {

  /**
   * `\w` of a `str` pattern. Python's class is Unicode-wide; here it is the
   * ASCII letters, the digits and the underscore.
   */
  predicate WordChar(c: char) {
    ('a' <= c <= 'z') || ('A' <= c <= 'Z') || ('0' <= c <= '9') || c == '_'
  }

  predicate IsDigit(c: char) {
    '0' <= c <= '9'
  }

  /** `[\w\d_]+`: one or more word characters. */
  predicate IsIdent(s: string) {
    |s| > 0 && AllWord(s)
  }

  predicate AllWord(s: string) {
    forall k :: 0 <= k < |s| ==> WordChar(s[k])
  }

  // ---- str.split and str.join ----

  /** `s.split(sep)` for a one-character separator: the pieces between separators, empty ones included. */
  function Split(s: string, sep: char): (r: seq<string>)
    ensures |r| >= 1
    ensures forall j :: 0 <= j < |r| ==> sep !in r[j]
  {
    if s == [] then [[]]
    else
      var rest := Split(s[1..], sep);
      if s[0] == sep then [[]] + rest else [[s[0]] + rest[0]] + rest[1..]
  }

  /** `sep.join(ps)`. */
  function Join(ps: seq<string>, sep: char): string {
    if ps == [] then []
    else if |ps| == 1 then ps[0]
    else ps[0] + [sep] + Join(ps[1..], sep)
  }

  /** Joining the pieces of a split gives back the string. */
  lemma {:induction false} SplitJoin(s: string, sep: char)
    ensures Join(Split(s, sep), sep) == s
  {
    if s != [] {
      var rest := Split(s[1..], sep);
      SplitJoin(s[1..], sep);
      if s[0] == sep {
        assert Split(s, sep) == [[]] + rest;
        assert ([[]] + rest)[1..] == rest;
      } else if |rest| == 1 {
        assert Split(s, sep) == [[s[0]] + rest[0]];
      } else {
        var r := Split(s, sep);
        assert r[1..] == rest[1..];
        assert Join(rest, sep) == rest[0] + [sep] + Join(rest[1..], sep);
      }
    }
  }

  /** Splitting a join of separator-free pieces gives back the pieces. */
  lemma {:induction false} JoinSplit(ps: seq<string>, sep: char)
    requires |ps| >= 1
    requires forall j :: 0 <= j < |ps| ==> sep !in ps[j]
    ensures Split(Join(ps, sep), sep) == ps
    decreases |ps|, |ps[0]|
  {
    if |ps| == 1 {
      SplitFree(ps[0], sep);
    } else if ps[0] == [] {
      var tail := ps[1..];
      JoinSplit(tail, sep);
      assert Join(ps, sep) == [sep] + Join(tail, sep);
      assert ([sep] + Join(tail, sep))[1..] == Join(tail, sep);
      assert Split(Join(ps, sep), sep) == [[]] + tail;
    } else {
      var c := ps[0][0];
      var ps' := [ps[0][1..]] + ps[1..];
      assert sep !in ps[0][1..] by {
        assert forall k :: 0 <= k < |ps[0][1..]| ==> ps[0][1..][k] == ps[0][k + 1];
      }
      JoinSplit(ps', sep);
      assert ps'[1..] == ps[1..];
      assert Join(ps, sep) == [c] + Join(ps', sep);
      assert ([c] + Join(ps', sep))[1..] == Join(ps', sep);
      assert [c] + ps'[0] == ps[0];
      assert c != sep by { assert c == ps[0][0]; }
    }
  }

  /** A string without the separator splits into itself. */
  lemma {:induction false} SplitFree(s: string, sep: char)
    requires sep !in s
    ensures Split(s, sep) == [s]
  {
    if s != [] {
      assert sep !in s[1..] by {
        assert forall k :: 0 <= k < |s[1..]| ==> s[1..][k] == s[k + 1];
      }
      SplitFree(s[1..], sep);
      assert [s[0]] + s[1..] == s;
    }
  }

  /** The index of the first `c` in `s`: where `s.split(c, 1)` cuts. */
  function IndexOf(s: string, c: char): (i: nat)
    requires c in s
    ensures i < |s| && s[i] == c && c !in s[..i]
  {
    if s[0] == c then 0
    else
      assert c in s[1..] by {
        var k :| 0 <= k < |s| && s[k] == c;
        assert s[1..][k - 1] == c;
      }
      var i := 1 + IndexOf(s[1..], c);
      assert s[..i] == [s[0]] + s[1..][..i - 1];
      i
  }

  /** The first occurrence of `c` in `p + [c] + q` is right after `p` when `p` has none. */
  lemma {:induction false} IndexOfJoin(p: string, c: char, q: string)
    requires c !in p
    ensures c in p + [c] + q && IndexOf(p + [c] + q, c) == |p|
    ensures (p + [c] + q)[..|p|] == p && (p + [c] + q)[|p| + 1..] == q
  {
    var s := p + [c] + q;
    assert s[|p|] == c;
    if p != [] {
      assert c !in p[1..] by {
        assert forall k :: 0 <= k < |p[1..]| ==> p[1..][k] == p[k + 1];
      }
      IndexOfJoin(p[1..], c, q);
      assert s[1..] == p[1..] + [c] + q;
      assert s[0] == p[0] && p[0] != c;
    }
  }

  // ---- the grammars, structurally ----

  /** `ident(.ident)*`: every `.`-piece is an identifier. */
  predicate DottedPath(s: string) {
    forall p :: p in Split(s, '.') ==> IsIdent(p)
  }

  /** `ident(.ident)*(:ident(.ident)*)?`: a dotted path, then optionally `:` and a second one. */
  predicate ImportString(s: string) {
    if ':' in s then
      var i := IndexOf(s, ':');
      DottedPath(s[..i]) && DottedPath(s[i + 1..])
    else DottedPath(s)
  }

  /** `$ident(.ident)*`. */
  predicate ResolveString(s: string) {
    |s| > 0 && s[0] == '$' && DottedPath(s[1..])
  }

  // ---- the grammars as `re.fullmatch` runs them ----

  /**
   * The automaton of `^([\w\d_]+)(\.[\w\d_]+)*(:[\w\d_]+)?(\.[\w\d_]+)*$`,
   * position by position. NeedWord: a word character must come next (the
   * start, after a `.` or after the `:`). InWord: inside a run of word
   * characters, where the string may end, a `.` may start the next group,
   * and a `:` may start the colon group while `colonOk` (once only).
   */
  predicate NeedWord(s: string, colonOk: bool)
    decreases |s|
  {
    |s| > 0 && WordChar(s[0]) && InWord(s[1..], colonOk)
  }

  predicate InWord(s: string, colonOk: bool)
    decreases |s|
  {
    s == []
    || (WordChar(s[0]) && InWord(s[1..], colonOk))
    || (s[0] == '.' && NeedWord(s[1..], colonOk))
    || (s[0] == ':' && colonOk && NeedWord(s[1..], false))
  }

  /** `RE_IMPORT_STRING.fullmatch(s)`. */
  predicate FullMatchImport(s: string) {
    NeedWord(s, true)
  }

  /** `RE_RESOLVE_STRING.fullmatch(s)`: `^\$([\w\d_]+)(\.[\w\d_]+)*$`. */
  predicate FullMatchResolve(s: string) {
    |s| > 0 && s[0] == '$' && NeedWord(s[1..], false)
  }

  // ---- the two agree ----

  /** The pieces after the first, of a split whose first piece may be empty. */
  predicate TailIdents(ps: seq<string>) {
    forall j :: 1 <= j < |ps| ==> IsIdent(ps[j])
  }

  lemma {:induction false} InWordSplit(s: string)
    ensures InWord(s, false) <==> AllWord(Split(s, '.')[0]) && TailIdents(Split(s, '.'))
    ensures NeedWord(s, false) <==> DottedPath(s)
    decreases |s|
  {
    if s == [] {
      var ps := Split(s, '.');
      assert ps == [[]];
      assert [] in ps;
    } else {
      InWordSplit(s[1..]);
      if s[0] == '.' {
        InWordSplitDot(s);
      } else {
        InWordSplitWord(s);
      }
    }
  }

  /** The step of InWordSplit at a leading `.`: the first piece is empty. */
  lemma InWordSplitDot(s: string)
    requires s != [] && s[0] == '.'
    requires NeedWord(s[1..], false) <==> DottedPath(s[1..])
    ensures InWord(s, false) <==> AllWord(Split(s, '.')[0]) && TailIdents(Split(s, '.'))
    ensures NeedWord(s, false) <==> DottedPath(s)
  {
    var ps := Split(s, '.');
    var rest := Split(s[1..], '.');
    assert ps == [[]] + rest;
    assert forall j :: 1 <= j < |ps| ==> ps[j] == rest[j - 1];
    assert DottedPath(s[1..]) <==> TailIdents(ps) by {
      if TailIdents(ps) {
        forall p | p in rest ensures IsIdent(p) {
          var j :| 0 <= j < |rest| && rest[j] == p;
          assert ps[j + 1] == p;
        }
      }
    }
    assert !IsIdent(ps[0]) && ps[0] in ps;
  }

  /** The step of InWordSplit at any other first character: it joins the first piece. */
  lemma InWordSplitWord(s: string)
    requires s != [] && s[0] != '.'
    requires InWord(s[1..], false) <==> AllWord(Split(s[1..], '.')[0]) && TailIdents(Split(s[1..], '.'))
    ensures InWord(s, false) <==> AllWord(Split(s, '.')[0]) && TailIdents(Split(s, '.'))
    ensures NeedWord(s, false) <==> DottedPath(s)
  {
    var ps := Split(s, '.');
    var rest := Split(s[1..], '.');
    assert ps == [[s[0]] + rest[0]] + rest[1..];
    assert forall j :: 1 <= j < |ps| ==> ps[j] == rest[j];
    assert TailIdents(ps) <==> TailIdents(rest);
    AllWordCons(s[0], rest[0]);
    DottedPathHead(s);
  }

  lemma AllWordCons(c: char, w: string)
    ensures AllWord([c] + w) <==> WordChar(c) && AllWord(w)
  {
    var t := [c] + w;
    assert t[0] == c;
    assert forall k :: 0 <= k < |w| ==> t[k + 1] == w[k];
    if WordChar(c) && AllWord(w) {
      forall k | 0 <= k < |t| ensures WordChar(t[k]) {
        if k > 0 { assert t[k] == w[k - 1]; }
      }
    }
  }

  /** A dotted path: an identifier first, then identifiers. */
  lemma DottedPathHead(s: string)
    ensures DottedPath(s) <==> IsIdent(Split(s, '.')[0]) && TailIdents(Split(s, '.'))
  {
    var ps := Split(s, '.');
    if DottedPath(s) {
      assert ps[0] in ps;
      forall j | 1 <= j < |ps| ensures IsIdent(ps[j]) { assert ps[j] in ps; }
    }
    if IsIdent(ps[0]) && TailIdents(ps) {
      forall p | p in ps ensures IsIdent(p) {
        var j :| 0 <= j < |ps| && ps[j] == p;
      }
    }
  }

  /** The colon group: what the automaton checks on either side of the first `:`. */
  lemma {:induction false} ColonSplit(s: string)
    ensures InWord(s, true) <==>
      if ':' in s then InWord(s[..IndexOf(s, ':')], false) && NeedWord(s[IndexOf(s, ':') + 1..], false)
      else InWord(s, false)
    ensures NeedWord(s, true) <==>
      if ':' in s then NeedWord(s[..IndexOf(s, ':')], false) && NeedWord(s[IndexOf(s, ':') + 1..], false)
      else NeedWord(s, false)
    decreases |s|
  {
    if s != [] {
      var t := s[1..];
      ColonSplit(t);
      if s[0] == ':' {
        assert IndexOf(s, ':') == 0;
        assert s[..0] == [];
      } else if ':' in s {
        assert ':' in t by {
          var k := IndexOf(s, ':');
          assert t[k - 1] == ':';
        }
        var i := IndexOf(t, ':');
        assert IndexOf(s, ':') == i + 1;
        assert s[..i + 1] == [s[0]] + t[..i];
        assert ([s[0]] + t[..i])[1..] == t[..i];
        assert s[i + 2..] == t[i + 1..];
      } else {
        assert forall k :: 0 <= k < |t| ==> t[k] == s[k + 1];
      }
    }
  }

  /** `RE_IMPORT_STRING` matches exactly the import strings. */
  lemma ImportRegexAgrees(s: string)
    ensures FullMatchImport(s) <==> ImportString(s)
  {
    ColonSplit(s);
    if ':' in s {
      var i := IndexOf(s, ':');
      InWordSplit(s[..i]);
      InWordSplit(s[i + 1..]);
    } else {
      InWordSplit(s);
    }
  }

  /** `RE_RESOLVE_STRING` matches exactly `$` followed by a dotted path. */
  lemma ResolveRegexAgrees(s: string)
    ensures FullMatchResolve(s) <==> ResolveString(s)
  {
    if |s| > 0 {
      InWordSplit(s[1..]);
    }
  }

  /** A dotted path holds only word characters and dots: no `:` and no `$`. */
  lemma {:induction false} DottedPathChars(s: string)
    requires DottedPath(s)
    ensures forall k :: 0 <= k < |s| ==> WordChar(s[k]) || s[k] == '.'
  {
    InWordSplit(s);
    NeedWordChars(s, false);
  }

  lemma {:induction false} NeedWordChars(s: string, colonOk: bool)
    requires NeedWord(s, colonOk) || InWord(s, colonOk)
    ensures forall k :: 0 <= k < |s| ==> WordChar(s[k]) || s[k] == '.' || (colonOk && s[k] == ':')
    decreases |s|
  {
    if s != [] {
      if s[0] == ':' && colonOk {
        NeedWordChars(s[1..], false);
      } else {
        NeedWordChars(s[1..], colonOk);
      }
      assert forall k :: 1 <= k < |s| ==> s[k] == s[1..][k - 1];
    }
  }

  /** A single identifier is a dotted path of one piece. */
  lemma IdentIsDottedPath(s: string)
    requires IsIdent(s)
    ensures '.' !in s && Split(s, '.') == [s] && DottedPath(s)
  {
    SplitFree(s, '.');
  }

  /** An import string with a colon is its part before the first colon, that colon, and a part after it that holds no colon. */
  lemma ImportStringShape(s: string)
    requires ImportString(s) && ':' in s
    ensures var i := IndexOf(s, ':');
      s == s[..i] + [':'] + s[i + 1..] && ':' !in s[i + 1..]
  {
    var i := IndexOf(s, ':');
    assert s == s[..i] + [':'] + s[i + 1..];
    DottedPathChars(s[i + 1..]);
  }

  // ---- Python names, as `eval` reads a dotted path ----

  const Keywords: set<string> := {
    "False", "None", "True", "and", "as", "assert", "async", "await", "break",
    "class", "continue", "def", "del", "elif", "else", "except", "finally",
    "for", "from", "global", "if", "import", "in", "is", "lambda", "nonlocal",
    "not", "or", "pass", "raise", "return", "try", "while", "with", "yield"}

  /** A Python identifier that is not a keyword: what may follow a `.` in an expression. */
  predicate PyName(s: string) {
    IsIdent(s) && !IsDigit(s[0]) && s !in Keywords
  }

  /** The keywords that are expressions on their own. */
  predicate ConstantName(s: string) {
    s == "None" || s == "True" || s == "False"
  }
}
