/** Pure operations on the id lists a post carries (likes, comments):
    MongoDB's `$pull`, and the `filter` callbacks of the unlike and
    delete-comment handlers. */
module Lists {
  import opened FeedTypes

  /** No id occurs twice. */
  ghost predicate NoDuplicates(s: seq<Id>) {
    forall i, j :: 0 <= i < j < |s| ==> s[i] != s[j]
  }

  /** `s` with every occurrence of `x` removed, the rest in order:
      `$pull` of a single value. */
  function Without(s: seq<Id>, x: Id): (r: seq<Id>)
    ensures forall y :: y in r <==> y in s && y != x
    ensures |r| <= |s|
    ensures x in s ==> |r| < |s|
    ensures x !in s ==> r == s
  {
    if s == [] then []
    else if s[0] == x then
      assert s == [s[0]] + s[1..];
      Without(s[1..], x)
    else
      assert s == [s[0]] + s[1..];
      [s[0]] + Without(s[1..], x)
  }

  /** `s` with every occurrence of any id of `xs` removed, the rest in order:
      one `$pull` per id of `xs`. */
  function WithoutAll(s: seq<Id>, xs: set<Id>): (r: seq<Id>)
    ensures forall y :: y in r <==> y in s && y !in xs
    ensures |r| <= |s|
  {
    if s == [] then []
    else if s[0] in xs then
      assert s == [s[0]] + s[1..];
      WithoutAll(s[1..], xs)
    else
      assert s == [s[0]] + s[1..];
      [s[0]] + WithoutAll(s[1..], xs)
  }

  /** `$pull` works element by element: pulling from a concatenation is
      pulling from each part, so the kept ids stay in their order. */
  lemma {:induction false} WithoutAppend(a: seq<Id>, b: seq<Id>, x: Id)
    ensures Without(a + b, x) == Without(a, x) + Without(b, x)
  {
    if a == [] {
      assert a + b == b;
    } else {
      var ab := a + b;
      assert ab[0] == a[0];
      assert ab[1..] == a[1..] + b;
      WithoutAppend(a[1..], b, x);
    }
  }

  /** The same for pulling a set of ids. */
  lemma {:induction false} WithoutAllAppend(a: seq<Id>, b: seq<Id>, xs: set<Id>)
    ensures WithoutAll(a + b, xs) == WithoutAll(a, xs) + WithoutAll(b, xs)
  {
    if a == [] {
      assert a + b == b;
    } else {
      var ab := a + b;
      assert ab[0] == a[0];
      assert ab[1..] == a[1..] + b;
      WithoutAllAppend(a[1..], b, xs);
    }
  }

  /** `$pull` keeps every other id as many times as it occurred and drops
      every occurrence of the pulled one. */
  lemma {:induction false} WithoutMultiset(s: seq<Id>, x: Id)
    ensures multiset(Without(s, x)) == multiset(s)[x := 0]
  {
    if s != [] {
      assert s == [s[0]] + s[1..];
      WithoutMultiset(s[1..], x);
    }
  }

  /** The same for pulling a set of ids. */
  lemma {:induction false} WithoutAllMultiset(s: seq<Id>, xs: set<Id>)
    ensures forall y :: multiset(WithoutAll(s, xs))[y] == if y in xs then 0 else multiset(s)[y]
  {
    if s != [] {
      assert s == [s[0]] + s[1..];
      WithoutAllMultiset(s[1..], xs);
    }
  }

  lemma {:induction false} WithoutAllEmpty(s: seq<Id>)
    ensures WithoutAll(s, {}) == s
  {
    if s != [] {
      WithoutAllEmpty(s[1..]);
      assert s == [s[0]] + s[1..];
    }
  }

  /** Pulling one more id after a batch is the same as pulling the enlarged batch. */
  lemma {:induction false} WithoutAllStep(s: seq<Id>, xs: set<Id>, x: Id)
    ensures Without(WithoutAll(s, xs), x) == WithoutAll(s, xs + {x})
  {
    if s != [] {
      WithoutAllStep(s[1..], xs, x);
      if s[0] !in xs {
        assert WithoutAll(s, xs) == [s[0]] + WithoutAll(s[1..], xs);
        assert ([s[0]] + WithoutAll(s[1..], xs))[1..] == WithoutAll(s[1..], xs);
      }
    }
  }

  lemma {:induction false} ConsNoDuplicates(a: Id, t: seq<Id>)
    requires a !in t && NoDuplicates(t)
    ensures NoDuplicates([a] + t)
  {
    var s := [a] + t;
    forall i, j | 0 <= i < j < |s| ensures s[i] != s[j] {
      if i == 0 {
        assert s[j] == t[j - 1];
      } else {
        assert s[i] == t[i - 1] && s[j] == t[j - 1];
      }
    }
  }

  lemma {:induction false} WithoutNoDuplicates(s: seq<Id>, x: Id)
    requires NoDuplicates(s)
    ensures NoDuplicates(Without(s, x))
  {
    if s != [] {
      assert NoDuplicates(s[1..]) by {
        forall i, j | 0 <= i < j < |s[1..]| ensures s[1..][i] != s[1..][j] {
          assert s[1..][i] == s[i + 1] && s[1..][j] == s[j + 1];
        }
      }
      WithoutNoDuplicates(s[1..], x);
      if s[0] != x {
        assert s[0] !in s[1..] by {
          forall k | 0 <= k < |s[1..]| ensures s[1..][k] != s[0] {
            assert s[1..][k] == s[k + 1];
          }
        }
        ConsNoDuplicates(s[0], Without(s[1..], x));
      }
    }
  }

  lemma {:induction false} WithoutAllNoDuplicates(s: seq<Id>, xs: set<Id>)
    requires NoDuplicates(s)
    ensures NoDuplicates(WithoutAll(s, xs))
  {
    if s != [] {
      assert NoDuplicates(s[1..]) by {
        forall i, j | 0 <= i < j < |s[1..]| ensures s[1..][i] != s[1..][j] {
          assert s[1..][i] == s[i + 1] && s[1..][j] == s[j + 1];
        }
      }
      WithoutAllNoDuplicates(s[1..], xs);
      if s[0] !in xs {
        assert s[0] !in s[1..] by {
          forall k | 0 <= k < |s[1..]| ensures s[1..][k] != s[0] {
            assert s[1..][k] == s[k + 1];
          }
        }
        ConsNoDuplicates(s[0], WithoutAll(s[1..], xs));
      }
    }
  }

  /** Appending an id that is absent keeps a list duplicate-free. */
  lemma AppendNoDuplicates(s: seq<Id>, x: Id)
    requires NoDuplicates(s) && x !in s
    ensures NoDuplicates(s + [x])
  {
    var r := s + [x];
    forall i, j | 0 <= i < j < |r| ensures r[i] != r[j] {
      if j == |s| {
        assert r[i] == s[i];
      } else {
        assert r[i] == s[i] && r[j] == s[j];
      }
    }
  }

  /** Which behaviour the handlers' filter callbacks have.  As written,
      `(l) => { l.toString() !== id; }` has a block body without `return`,
      so every element is rejected; the intended callback keeps every
      element different from the id. */
  datatype FilterReading = AsWritten | Intended

  /** The list the unlike and delete-comment handlers compute with `filter`. */
  function Filtered(s: seq<Id>, x: Id, reading: FilterReading): (r: seq<Id>)
    ensures x !in r
    ensures forall y :: y in r ==> y in s
    ensures |r| <= |s|
    ensures reading == AsWritten ==> r == []
    ensures reading == Intended ==> forall y :: y in s && y != x ==> y in r
    ensures reading == Intended ==> multiset(r) == multiset(s)[x := 0]
    ensures |r| == |s| <==> (if reading == AsWritten then s == [] else x !in s)
  {
    match reading
    case AsWritten => []
    case Intended =>
      WithoutMultiset(s, x);
      Without(s, x)
  }

  lemma FilteredNoDuplicates(s: seq<Id>, x: Id, reading: FilterReading)
    requires NoDuplicates(s)
    ensures NoDuplicates(Filtered(s, x, reading))
  {
    if reading == Intended {
      WithoutNoDuplicates(s, x);
    }
  }

  /** As written, one user's unlike also drops every other user's like. */
  lemma UnlikeAsWrittenDropsOtherLikes()
    ensures var likes := ["alice", "bob"];
            Filtered(likes, "bob", AsWritten) == [] &&
            Filtered(likes, "bob", Intended) == ["alice"]
  {
    assert ["alice", "bob"][1..] == ["bob"];
    assert ["bob"][1..] == [];
  }

  /** As written, deleting a comment from a post whose list does not hold it
      passes the "commented" check and empties that post's list. */
  lemma DeleteCommentAsWrittenClearsUnrelated()
    ensures var comments := ["c1"];
            |Filtered(comments, "c2", AsWritten)| != |comments| &&
            Filtered(comments, "c2", AsWritten) == [] &&
            Filtered(comments, "c2", Intended) == comments
  {
  }
}
