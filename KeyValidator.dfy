/**
 * The default file key validator (defaultKeyValidator): an ordered chain of
 * checks on the key, each returning its own message, and no message for an
 * acceptable key. `String.prototype.includes` and `String.prototype.trim`
 * are modelled on sequences of characters.
 */
module KeyValidation {
  import opened Wrappers

  const PARENT_DIRECTORY_MESSAGE: string := "The key cannot contain \"../\""
  const NEWLINE_MESSAGE: string := "The key cannot contain \"\\n\""
  const TAB_MESSAGE: string := "The key cannot contain \"\\t\""
  const BLANK_MESSAGE: string := "The key cannot contain only spaces or be an empty string"

  /** `sub` occurs in `s` starting at index `i`. */
  predicate OccursAt(s: string, sub: string, i: int)
  {
    0 <= i && i + |sub| <= |s| && s[i..i + |sub|] == sub
  }

  /** `s.includes(sub)`, searching from the front. */
  function Includes(s: string, sub: string): (r: bool)
    decreases |s|
  {
    |sub| <= |s| && (s[..|sub|] == sub || Includes(s[1..], sub))
  }

  /** includes finds `sub` exactly when it occurs at some index. */
  lemma {:induction false} IncludesIffOccurs(s: string, sub: string)
    ensures Includes(s, sub) <==> exists i :: OccursAt(s, sub, i)
    decreases |s|
  {
    if |sub| <= |s| && s[..|sub|] != sub {
      IncludesIffOccurs(s[1..], sub);
      if Includes(s[1..], sub) {
        var i :| OccursAt(s[1..], sub, i);
        OccursShift(s, sub, i + 1);
      } else if i :| OccursAt(s, sub, i) {
        assert i != 0;
        OccursShift(s, sub, i);
      }
    } else if |sub| <= |s| {
      assert OccursAt(s, sub, 0);
    }
  }

  /** An occurrence past the first character is an occurrence in the rest of the string, one index earlier. */
  lemma OccursShift(s: string, sub: string, i: int)
    requires 1 <= i && 1 <= |s|
    ensures OccursAt(s, sub, i) <==> OccursAt(s[1..], sub, i - 1)
  {
    if i + |sub| <= |s| {
      assert s[1..][i - 1..i - 1 + |sub|] == s[i..i + |sub|];
    }
  }

  /**
   * The characters `trim` removes: the ECMAScript WhiteSpace and
   * LineTerminator code points (section 12.2 and 12.3 of ECMA-262).
   */
  predicate IsWhiteSpace(c: char)
  {
    || c == '\U{0009}' || c == '\U{000A}' || c == '\U{000B}' || c == '\U{000C}' || c == '\U{000D}'
    || c == '\U{0020}' || c == '\U{00A0}' || c == '\U{1680}'
    || ('\U{2000}' <= c <= '\U{200A}')
    || c == '\U{2028}' || c == '\U{2029}' || c == '\U{202F}' || c == '\U{205F}' || c == '\U{3000}'
    || c == '\U{FEFF}'
  }

  /** Drops leading white space. */
  function TrimStart(s: string): (r: string)
    ensures |r| <= |s| && r == s[|s| - |r|..]
    ensures forall i | 0 <= i < |s| - |r| :: IsWhiteSpace(s[i])
    ensures r == [] || !IsWhiteSpace(r[0])
    decreases |s|
  {
    if s != [] && IsWhiteSpace(s[0]) then TrimStart(s[1..]) else s
  }

  /** Drops trailing white space. */
  function TrimEnd(s: string): (r: string)
    ensures |r| <= |s| && r == s[..|r|]
    ensures forall i | |r| <= i < |s| :: IsWhiteSpace(s[i])
    ensures r == [] || !IsWhiteSpace(r[|r| - 1])
    decreases |s|
  {
    if s != [] && IsWhiteSpace(s[|s| - 1]) then TrimEnd(s[..|s| - 1]) else s
  }

  /** `r` is `s` from index `i` on, with only white space cut off at either end. */
  predicate TrimmedAt(s: string, r: string, i: int)
  {
    && 0 <= i <= |s| - |r|
    && r == s[i..i + |r|]
    && (forall j | 0 <= j < i :: IsWhiteSpace(s[j]))
    && (forall j | i + |r| <= j < |s| :: IsWhiteSpace(s[j]))
  }

  /** `s.trim()`: `s` without its leading and trailing white space, and nothing else removed. */
  function Trim(s: string): (r: string)
    ensures exists i :: TrimmedAt(s, r, i)
    ensures r == [] || (!IsWhiteSpace(r[0]) && !IsWhiteSpace(r[|r| - 1]))
  {
    var start := TrimStart(s);
    var r := TrimEnd(start);
    var i := |s| - |start|;
    assert forall j | i + |r| <= j < |s| :: s[j] == start[j - i];
    assert TrimmedAt(s, r, i);
    r
  }

  /** A key trims to the empty string exactly when every character is white space. */
  lemma TrimEmptyIffAllWhiteSpace(s: string)
    ensures Trim(s) == [] <==> forall i | 0 <= i < |s| :: IsWhiteSpace(s[i])
  {
    var start := TrimStart(s);
    if start != [] {
      assert !IsWhiteSpace(start[0]);
      assert start[0] == s[|s| - |start|];
    }
  }

  /**
   * The checks in order: "../" first, then a newline, then a tab, then a key
   * that is empty or only white space. None returns the key as valid.
   */
  function DefaultKeyValidator(key: string): (r: Option<string>)
    ensures (exists i :: OccursAt(key, "../", i)) ==> r == Some(PARENT_DIRECTORY_MESSAGE)
    ensures !(exists i :: OccursAt(key, "../", i)) && '\n' in key ==> r == Some(NEWLINE_MESSAGE)
    ensures !(exists i :: OccursAt(key, "../", i)) && '\n' !in key && '\t' in key ==> r == Some(TAB_MESSAGE)
    ensures (&& !(exists i :: OccursAt(key, "../", i)) && '\n' !in key && '\t' !in key
             && forall i | 0 <= i < |key| :: IsWhiteSpace(key[i]))
            ==> r == Some(BLANK_MESSAGE)
    ensures r.None? <==>
            && !(exists i :: OccursAt(key, "../", i))
            && '\n' !in key && '\t' !in key
            && exists i | 0 <= i < |key| :: !IsWhiteSpace(key[i])
  {
    IncludesIffOccurs(key, "../");
    IncludesIffOccurs(key, "\n");
    IncludesIffOccurs(key, "\t");
    SingleCharOccurs(key, '\n');
    SingleCharOccurs(key, '\t');
    TrimEmptyIffAllWhiteSpace(key);
    if Includes(key, "../") then Some(PARENT_DIRECTORY_MESSAGE)
    else if Includes(key, "\n") then Some(NEWLINE_MESSAGE)
    else if Includes(key, "\t") then Some(TAB_MESSAGE)
    else if Trim(key) == "" then Some(BLANK_MESSAGE)
    else None
  }

  /** A one-character string occurs in `s` exactly when that character is in `s`. */
  lemma SingleCharOccurs(s: string, c: char)
    ensures (exists i :: OccursAt(s, [c], i)) <==> c in s
  {
    if c in s {
      var i :| 0 <= i < |s| && s[i] == c;
      assert s[i..i + 1] == [c];
      assert OccursAt(s, [c], i);
    }
    if i :| OccursAt(s, [c], i) {
      assert s[i] == s[i..i + 1][0];
    }
  }

  /** "../" is reported even when the key also holds a newline. */
  lemma ParentDirectoryFirstScenario()
    ensures DefaultKeyValidator("a/../b\n") == Some(PARENT_DIRECTORY_MESSAGE)
  {
    assert OccursAt("a/../b\n", "../", 2);
  }

  /** A newline is reported before a tab, and a tab before blankness. */
  lemma NewlineBeforeTabScenario()
    ensures DefaultKeyValidator("\n\t") == Some(NEWLINE_MESSAGE)
    ensures DefaultKeyValidator(" \t") == Some(TAB_MESSAGE)
  {
    assert "\n\t"[0] == '\n';
    assert " \t"[1] == '\t';
  }

  /** The empty key and a key of non-breaking spaces are blank; an ordinary path is valid. */
  lemma BlankScenario()
    ensures DefaultKeyValidator("") == Some(BLANK_MESSAGE)
    ensures DefaultKeyValidator(" \U{00A0}") == Some(BLANK_MESSAGE)
    ensures DefaultKeyValidator("a/b") == None
  {
    assert "a/b"[0] == 'a';
  }
}
