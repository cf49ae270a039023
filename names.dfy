/** Lists of names: no repeats, deduplication and removal of one name. */
module Names {

  /** No name occurs twice: the `unique_together("usuario", "nombre")` constraint on one user's rows. */
  predicate NoDups(s: seq<string>)
  {
    forall i, j :: 0 <= i < j < |s| ==> s[i] != s[j]
  }

  /** Dropping the last name keeps a list free of repeats, and the dropped name is not among
      the rest. */
  lemma NoDupsInit(s: seq<string>)
    requires NoDups(s) && s != []
    ensures NoDups(s[..|s| - 1]) && s[|s| - 1] !in s[..|s| - 1]
  {
    var p := s[..|s| - 1];
    forall i, j | 0 <= i < j < |p| ensures p[i] != p[j] {
      assert p[i] == s[i] && p[j] == s[j];
    }
    forall i | 0 <= i < |p| ensures p[i] != s[|s| - 1] {
      assert p[i] == s[i];
    }
  }

  /** The names of `s` as a set. */
  function Elements(s: seq<string>): set<string>
  {
    set x | x in s
  }

  /** In a list without repeats a name occurs once or not at all. */
  lemma {:induction false} NoDupsCount(s: seq<string>, x: string)
    requires NoDups(s)
    ensures multiset(s)[x] == if x in s then 1 else 0
    decreases |s|
  {
    if s != [] {
      var p := s[..|s| - 1];
      assert s == p + [s[|s| - 1]];
      assert NoDups(p);
      NoDupsCount(p, x);
    }
  }

  /** `list(set(s))`: every name of `s` once. Python leaves the order of a set unspecified;
      this definition keeps the order of first occurrence. */
  function Dedup(s: seq<string>): (r: seq<string>)
    ensures NoDups(r)
    ensures forall x :: x in r <==> x in s
    ensures |r| <= |s|
    decreases |s|
  {
    if s == [] then []
    else
      var d := Dedup(s[..|s| - 1]);
      var x := s[|s| - 1];
      if x in d then d else d + [x]
  }

  /** A list that already has no repeats is left as it is by deduplication. */
  lemma {:induction false} DedupOfDistinct(s: seq<string>)
    requires NoDups(s)
    ensures Dedup(s) == s
    decreases |s|
  {
    if s != [] {
      var p := s[..|s| - 1];
      assert NoDups(p);
      DedupOfDistinct(p);
      assert s[|s| - 1] !in p;
      assert p + [s[|s| - 1]] == s;
    }
  }

  /** The rows left once every row named `x` is deleted: `filter(nombre=x).delete()`. */
  function Without(s: seq<string>, x: string): (r: seq<string>)
    ensures x !in r
    ensures forall y :: y != x ==> (y in r <==> y in s)
    ensures NoDups(s) ==> NoDups(r)
    ensures |r| <= |s|
    decreases |s|
  {
    if s == [] then []
    else
      var w := Without(s[..|s| - 1], x);
      var y := s[|s| - 1];
      assert NoDups(s) ==> NoDups(s[..|s| - 1]) && y !in s[..|s| - 1] by {
        if NoDups(s) { NoDupsInit(s); }
      }
      if y == x then w else w + [y]
  }

  /** A name the rows do not hold: deleting it changes nothing. */
  lemma {:induction false} WithoutAbsent(s: seq<string>, x: string)
    requires x !in s
    ensures Without(s, x) == s
    decreases |s|
  {
    if s != [] {
      var p := s[..|s| - 1];
      WithoutAbsent(p, x);
      assert p + [s[|s| - 1]] == s;
    }
  }

  /** In a list without repeats, deleting a name it holds removes exactly that one entry and keeps
      the order of the others. */
  lemma {:induction false} WithoutRemovesOne(s: seq<string>, x: string) returns (i: nat)
    requires NoDups(s) && x in s
    ensures i < |s| && s[i] == x
    ensures Without(s, x) == s[..i] + s[i + 1..]
    decreases |s|
  {
    NoDupsInit(s);
    var p := s[..|s| - 1];
    var y := s[|s| - 1];
    assert p + [y] == s;
    if y == x {
      WithoutAbsent(p, x);
      i := |s| - 1;
    } else {
      i := WithoutRemovesOne(p, x);
      assert Without(s, x) == Without(p, x) + [y];
      SpliceSnoc(p, y, i);
    }
  }

  /** Cutting out position `i` commutes with appending a name. */
  lemma SpliceSnoc(p: seq<string>, y: string, i: nat)
    requires i < |p|
    ensures (p[..i] + p[i + 1..]) + [y] == (p + [y])[..i] + (p + [y])[i + 1..]
  {
    assert (p + [y])[..i] == p[..i];
    assert (p + [y])[i + 1..] == p[i + 1..] + [y];
  }

  /** The index of the first name of `s` that repeats an earlier one. */
  predicate FirstRepeat(s: seq<string>, k: int)
  {
    0 <= k < |s| && NoDups(s[..k]) && s[k] in s[..k]
  }

  /** The longest prefix of `s` without repeats: what inserting the names of `s` one by one
      under the uniqueness constraint leaves, when the first refused insertion ends the loop. */
  function UniquePrefix(s: seq<string>): seq<string>
    decreases |s|
  {
    if s == [] then []
    else
      var p := s[..|s| - 1];
      var u := UniquePrefix(p);
      if u == p && s[|s| - 1] !in p then s else u
  }

  /** The prefix is all of `s` exactly when `s` has no repeats; otherwise it stops right before
      the first repeated name. */
  lemma {:induction false} UniquePrefixSpec(s: seq<string>)
    ensures NoDups(s) <==> UniquePrefix(s) == s
    ensures !NoDups(s) ==> |UniquePrefix(s)| < |s| && UniquePrefix(s) == s[..|UniquePrefix(s)|] &&
                           FirstRepeat(s, |UniquePrefix(s)|)
    decreases |s|
  {
    if s != [] {
      var p := s[..|s| - 1];
      var x := s[|s| - 1];
      var u := UniquePrefix(p);
      UniquePrefixSpec(p);
      assert s == p + [x];
      if u == p && x !in p {
        assert NoDups(s);
      } else {
        assert !NoDups(s) by {
          if u != p {
            var i, j :| 0 <= i < j < |p| && p[i] == p[j];
            assert s[i] == s[j];
          } else {
            var i :| 0 <= i < |p| && p[i] == x;
            assert s[i] == s[|s| - 1];
          }
        }
        if u != p {
          assert s[..|u|] == p[..|u|];
        } else {
          assert s[..|u|] == p;
        }
      }
    }
  }

  /** A repeat at `k` is a repeat in every longer prefix. */
  lemma RepeatStays(s: seq<string>, k: int, m: int)
    requires FirstRepeat(s, k) && k < m <= |s|
    ensures !NoDups(s[..m])
  {
    var i :| 0 <= i < k && s[..k][i] == s[k];
    assert s[..m][i] == s[..m][k];
  }

  /** A sequence has at most one first repeat. */
  lemma FirstRepeatUnique(s: seq<string>, k: int, m: int)
    requires FirstRepeat(s, k) && FirstRepeat(s, m)
    ensures k == m
  {
    if k < m {
      RepeatStays(s, k, m);
      assert false;
    } else if m < k {
      RepeatStays(s, m, k);
      assert false;
    }
  }

  /** Where the first repeat is, the unique prefix ends. */
  lemma FirstRepeatPrefix(s: seq<string>, k: int)
    requires FirstRepeat(s, k)
    ensures UniquePrefix(s) == s[..k]
  {
    UniquePrefixSpec(s);
    assert !NoDups(s) by {
      var i :| 0 <= i < k && s[..k][i] == s[k];
      assert s[i] == s[k];
    }
    FirstRepeatUnique(s, k, |UniquePrefix(s)|);
  }
}
