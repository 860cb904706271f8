/**
 * Case-insensitive column lookup shared by the scoring engine and the DVF
 * helper: both build `{c.lower(): c for c in df.columns}` and then try a
 * short ordered list of accepted spellings.
 */
module Columns {
  import opened Wrappers

  /** Python's `str.lower` on one character, for ASCII and Latin-1 letters. */
  function LowerChar(c: char): (r: char)
    ensures !IsUpper(r)
    ensures !IsUpper(c) ==> r == c
    ensures IsUpper(c) ==> r as int == c as int + 32
  {
    if IsUpper(c) then (c as int + 32) as char else c
  }

  /** Upper-case letters of ASCII and Latin-1 (U+00D7, the multiplication sign, is not a letter). */
  predicate IsUpper(c: char) {
    ('A' <= c <= 'Z') || ('\U{C0}' <= c <= '\U{DE}' && c != '\U{D7}')
  }

  /** `s.lower()` */
  function Lower(s: string): (r: string)
    ensures |r| == |s|
    ensures forall i :: 0 <= i < |s| ==> r[i] == LowerChar(s[i])
  {
    seq(|s|, i requires 0 <= i < |s| => LowerChar(s[i]))
  }

  /** Lowering twice is lowering once. */
  lemma {:induction false} LowerIdempotent(s: string)
    ensures Lower(Lower(s)) == Lower(s)
  {
    assert forall i :: 0 <= i < |s| ==> LowerChar(LowerChar(s[i])) == LowerChar(s[i]);
  }

  /**
   * The dictionary `{c.lower(): c for c in names}`: a later column whose
   * lowered name repeats an earlier one replaces it.
   */
  function LowerIndex(names: seq<string>): map<string, string> {
    if names == [] then map[]
    else LowerIndex(names[..|names| - 1])[Lower(names[|names| - 1]) := names[|names| - 1]]
  }

  /**
   * The dictionary has a key for every lowered column name and no other; each
   * key maps to the LAST column whose lowered name it is.
   */
  lemma {:induction false} LowerIndexSpec(names: seq<string>)
    ensures forall k :: k in LowerIndex(names) <==> exists j :: 0 <= j < |names| && Lower(names[j]) == k
    ensures forall k :: k in LowerIndex(names) ==>
              exists j :: 0 <= j < |names| && names[j] == LowerIndex(names)[k] && Lower(names[j]) == k &&
                forall j' :: j < j' < |names| ==> Lower(names[j']) != k
  {
    if names != [] {
      var init := names[..|names| - 1];
      var last := names[|names| - 1];
      var n := |names|;
      LowerIndexSpec(init);
      var idx := LowerIndex(names);
      assert idx == LowerIndex(init)[Lower(last) := last];
      forall k ensures k in idx <==> exists j :: 0 <= j < n && Lower(names[j]) == k {
        if k in LowerIndex(init) {
          var j :| 0 <= j < |init| && Lower(init[j]) == k;
          assert names[j] == init[j];
        }
        if exists j :: 0 <= j < n && Lower(names[j]) == k {
          var j :| 0 <= j < n && Lower(names[j]) == k;
          if j < n - 1 { assert init[j] == names[j]; }
        }
      }
      forall k | k in idx
        ensures exists j :: 0 <= j < n && names[j] == idx[k] && Lower(names[j]) == k &&
                  forall j' :: j < j' < n ==> Lower(names[j']) != k
      {
        if k == Lower(last) {
          assert names[n - 1] == idx[k];
        } else {
          var j :| 0 <= j < |init| && init[j] == LowerIndex(init)[k] && Lower(init[j]) == k &&
                   forall j' :: j < j' < |init| ==> Lower(init[j']) != k;
          assert names[j] == idx[k];
          forall j' | j < j' < n ensures Lower(names[j']) != k {
            if j' < n - 1 { assert names[j'] == init[j']; }
          }
        }
      }
    }
  }

  /** `cols.get(a1) or cols.get(a2) or …`: the column of the first accepted spelling present. */
  function FirstPresent(idx: map<string, string>, aliases: seq<string>): (r: Option<string>)
    ensures r.None? <==> forall i :: 0 <= i < |aliases| ==> aliases[i] !in idx
    ensures r.Some? ==> exists i :: 0 <= i < |aliases| && aliases[i] in idx && r.value == idx[aliases[i]] &&
                           forall i' :: 0 <= i' < i ==> aliases[i'] !in idx
  {
    if aliases == [] then None
    else if aliases[0] in idx then Some(idx[aliases[0]])
    else
      var r := FirstPresent(idx, aliases[1..]);
      assert forall i :: 1 <= i < |aliases| ==> aliases[i] == aliases[1..][i - 1];
      r
  }

  /** Resolves one canonical field against the table's column names. */
  function Resolve(names: seq<string>, aliases: seq<string>): Option<string> {
    FirstPresent(LowerIndex(names), aliases)
  }

  /**
   * A field is missing exactly when no column name lowers to an accepted
   * spelling; when it is found, the column is one of the table's own and its
   * lowered name is an accepted spelling.
   */
  lemma {:induction false} ResolveSpec(names: seq<string>, aliases: seq<string>)
    ensures Resolve(names, aliases).None? <==>
              forall j, i :: 0 <= j < |names| && 0 <= i < |aliases| ==> Lower(names[j]) != aliases[i]
    ensures Resolve(names, aliases).Some? ==>
              Resolve(names, aliases).value in names && Lower(Resolve(names, aliases).value) in aliases
  {
    var idx := LowerIndex(names);
    LowerIndexSpec(names);
    var r := Resolve(names, aliases);
    if r.Some? {
      var i :| 0 <= i < |aliases| && aliases[i] in idx && r.value == idx[aliases[i]];
      var j :| 0 <= j < |names| && names[j] == idx[aliases[i]] && Lower(names[j]) == aliases[i];
      assert Lower(r.value) == aliases[i];
    } else {
      forall j, i | 0 <= j < |names| && 0 <= i < |aliases|
        ensures Lower(names[j]) != aliases[i]
      {
        assert aliases[i] !in idx;
      }
    }
  }

  /** Spelling the column names in another case resolves the same fields. */
  lemma {:induction false} ResolveCaseInsensitive(names: seq<string>, names': seq<string>, aliases: seq<string>)
    requires |names| == |names'|
    requires forall j :: 0 <= j < |names| ==> Lower(names[j]) == Lower(names'[j])
    ensures Resolve(names, aliases).None? <==> Resolve(names', aliases).None?
  {
    ResolveSpec(names, aliases);
    ResolveSpec(names', aliases);
  }
}
