/**
 What the store operations of TodoModel promise: how create assigns ids,
 which item a lookup finds, what an update may and may not change, what a
 delete removes, and the id reuse that position-based ids allow.
 */
module TodoLaws {
  import opened TodoModel

  // ---------- Search ----------

  /** The first match is determined by the ids alone: two collections with
      the same ids position by position find the same index. */
  lemma SameIdsSameIndex(s: seq<Todo>, t: seq<Todo>, param: Option<int>)
    requires |s| == |t|
    requires forall k :: 0 <= k < |s| ==> s[k].id == t[k].id
    ensures FindIndex(s, param) == FindIndex(t, param)
  {

  }

  // ---------- Create ----------

  /** Create appends exactly one item at the end, with id `old length + 1`
      and the given fields; the earlier items stay as they were, in order. */
  lemma CreateAppends(s: seq<Todo>, body: Fields)
    ensures |Add(s, body)| == |s| + 1
    ensures Add(s, body)[..|s|] == s
    ensures Add(s, body)[|s|] == Todo(|s| + 1, body.title, body.description)
  {
  }

  /** A run of creates appends one item per body, in order, and returns the
      ids |s|+1, |s|+2, ... */
  lemma {:induction false} CreateAllExtends(s: seq<Todo>, bodies: seq<Fields>)
    ensures |CreateAll(s, bodies).0| == |s| + |bodies|
    ensures |CreateAll(s, bodies).1| == |bodies|
    ensures CreateAll(s, bodies).0[..|s|] == s
    ensures forall k :: 0 <= k < |bodies| ==>
      CreateAll(s, bodies).1[k] == |s| + k + 1 &&
      CreateAll(s, bodies).0[|s| + k] == Todo(|s| + k + 1, bodies[k].title, bodies[k].description)
    decreases |bodies|
  {
    if bodies != [] {
      var s' := Add(s, bodies[0]);
      CreateAllExtends(s', bodies[1..]);
      var r := CreateAll(s, bodies);
      assert r.0 == CreateAll(s', bodies[1..]).0;
      assert r.0[..|s'|] == s';
      assert r.0[..|s|] == s'[..|s|];
      forall k | 1 <= k < |bodies|
        ensures r.1[k] == |s| + k + 1
        ensures r.0[|s| + k] == Todo(|s| + k + 1, bodies[k].title, bodies[k].description)
      {
        assert bodies[1..][k - 1] == bodies[k];
        assert r.1[k] == CreateAll(s', bodies[1..]).1[k - 1];
      }
      assert r.0[|s|] == s'[|s|];
    }
  }

  /** From an empty store, n creates and no deletes give the items ids 1..n
      in order and return those ids: unique and consecutive. */
  lemma FreshStoreIds(bodies: seq<Fields>)
    ensures |CreateAll([], bodies).0| == |CreateAll([], bodies).1| == |bodies|
    ensures forall k :: 0 <= k < |bodies| ==>
      CreateAll([], bodies).1[k] == k + 1 && CreateAll([], bodies).0[k].id == k + 1
    ensures Numbered(CreateAll([], bodies).0)
  {
    CreateAllExtends([], bodies);
  }

  /** Create keeps the ids exactly 1..n: the new id is one past every id in
      use. */
  lemma CreateKeepsNumbered(s: seq<Todo>, body: Fields)
    requires Numbered(s)
    ensures Numbered(Add(s, body))
  {

  }

  /** A Get for the id a create has just returned always finds an item with
      that id. It is the new item, with exactly the fields given, when no
      earlier item held that id; otherwise it is that earlier item. */
  lemma GetAfterCreate(s: seq<Todo>, body: Fields)
    ensures Lookup(Add(s, body), Some(|s| + 1)).Found?
    ensures Lookup(Add(s, body), Some(|s| + 1)).todo.id == |s| + 1
    ensures Absent(s, Some(|s| + 1)) ==>
      Lookup(Add(s, body), Some(|s| + 1)) == Found(Todo(|s| + 1, body.title, body.description))
    ensures !Absent(s, Some(|s| + 1)) ==>
      Lookup(Add(s, body), Some(|s| + 1)) == Lookup(s, Some(|s| + 1))
  {
    var r := Add(s, body);
    var i := FindIndex(r, Some(|s| + 1));
    assert Matches(r[|s|], Some(|s| + 1));
    if Absent(s, Some(|s| + 1)) {
      assert forall k :: 0 <= k < |s| ==> r[k] == s[k];
    } else {
      var j := FindIndex(s, Some(|s| + 1));
      assert r[j] == s[j];
      assert forall k :: 0 <= k < j ==> r[k] == s[k];
      assert i == j;
    }
  }

  // ---------- Get ----------

  /** The id-level reading of `Lookup`'s contract: Get returns the first item
      whose id equals the parameter, and NotFound exactly when none does; a
      parameter that did not parse is always NotFound. */
  lemma GetFirstMatch(s: seq<Todo>, param: Option<int>)
    ensures Lookup(s, param).NotFound? <==> Absent(s, param)
    ensures param.None? ==> Lookup(s, param) == NotFound
    ensures Lookup(s, param).Found? ==>
      exists k :: 0 <= k < |s| && Lookup(s, param).todo == s[k] && s[k].id == param.value &&
                  forall j :: 0 <= j < k ==> s[j].id != param.value
  {

  }

  // ---------- Update ----------

  /** Update on a found item: the title becomes the supplied title when it is
      truthy and keeps its old value otherwise, the description likewise;
      the id, every other item and the length are unchanged, and the updated
      item is returned. */
  lemma UpdateFields(s: seq<Todo>, param: Option<int>, body: Fields)
    requires !Absent(s, param)
    ensures var i := FindIndex(s, param);
      var r := Change(s, param, body);
      && |r.0| == |s|
      && r.0[i].id == s[i].id
      && r.0[i].title == (if Truthy(body.title) then body.title else s[i].title)
      && r.0[i].description == (if Truthy(body.description) then body.description else s[i].description)
      && (forall k :: 0 <= k < |s| && k != i ==> r.0[k] == s[k])
      && r.1 == Found(r.0[i])
  {
  }

  /** An update never blanks a field: afterwards a title is truthy exactly
      when the supplied or the old one was, and the same for the
      description. */
  lemma UpdateNeverBlanks(t: Todo, body: Fields)
    ensures Truthy(Patch(t, body).title) <==> Truthy(body.title) || Truthy(t.title)
    ensures Truthy(Patch(t, body).description) <==> Truthy(body.description) || Truthy(t.description)
  {
  }

  /** An update that supplies no truthy field leaves the collection exactly
      as it was (it still answers Found for an existing id). */
  lemma UpdateWithoutFields(s: seq<Todo>, param: Option<int>, body: Fields)
    requires !Truthy(body.title) && !Truthy(body.description)
    ensures Change(s, param, body).0 == s
    ensures Change(s, param, body).1 == Lookup(s, param)
  {

  }

  /** The same update applied twice has the effect of applying it once. */
  lemma UpdateIdempotent(s: seq<Todo>, param: Option<int>, body: Fields)
    ensures Change(Change(s, param, body).0, param, body) == Change(s, param, body)
  {
    var r := Change(s, param, body);
    var i := FindIndex(s, param);
    if i != -1 {
      SameIdsSameIndex(s, r.0, param);
      assert Patch(Patch(s[i], body), body) == Patch(s[i], body);
      assert r.0[i := Patch(r.0[i], body)] == r.0;
    }
  }

  /** Update keeps the ids exactly 1..n, because it never changes an id. */
  lemma UpdateKeepsNumbered(s: seq<Todo>, param: Option<int>, body: Fields)
    requires Numbered(s)
    ensures Numbered(Change(s, param, body).0)
  {
  }

  // ---------- Delete ----------

  /** Delete on a found id removes exactly the first matching item and
      returns it; the length drops by one and the remaining items keep their
      relative order. */
  lemma DeleteFirstMatch(s: seq<Todo>, param: Option<int>)
    requires !Absent(s, param)
    ensures Remove(s, param).1 == Found(s[FindIndex(s, param)])
    ensures Matches(s[FindIndex(s, param)], param)
    ensures |Remove(s, param).0| == |s| - 1
    ensures forall k :: 0 <= k < FindIndex(s, param) ==> Remove(s, param).0[k] == s[k]
    ensures forall k :: FindIndex(s, param) <= k < |s| - 1 ==> Remove(s, param).0[k] == s[k + 1]
    ensures multiset(Remove(s, param).0) + multiset{s[FindIndex(s, param)]} == multiset(s)
  {
    SpliceOne(s, FindIndex(s, param));
  }

  /** `splice(i, 1)` on a sequence: what is left, position by position, and
      as a multiset. */
  lemma SpliceOne(s: seq<Todo>, i: int)
    requires 0 <= i < |s|
    ensures |s[..i] + s[i + 1..]| == |s| - 1
    ensures forall k :: 0 <= k < i ==> (s[..i] + s[i + 1..])[k] == s[k]
    ensures forall k :: i < k < |s| ==> (s[..i] + s[i + 1..])[k - 1] == s[k]
    ensures multiset(s[..i] + s[i + 1..]) + multiset{s[i]} == multiset(s)
  {
    assert s == s[..i] + ([s[i]] + s[i + 1..]);
  }

  /** With unique ids, a Get after a successful delete of an id is NotFound. */
  lemma GetAfterDelete(s: seq<Todo>, param: Option<int>)
    requires UniqueIds(s)
    requires !Absent(s, param)
    ensures Lookup(Remove(s, param).0, param) == NotFound
  {

  }

  /** A search through a prefix that holds no match goes on in the rest:
      the first match of `p + t` is the first match of `t`, shifted by |p|. */
  lemma FindIndexPastAbsent(p: seq<Todo>, t: seq<Todo>, param: Option<int>)
    requires Absent(p, param)
    ensures FindIndex(p + t, param) ==
      if FindIndex(t, param) == -1 then -1 else |p| + FindIndex(t, param)
  {
    var pt := p + t;
    var j := FindIndex(t, param);
    assert forall k :: 0 <= k < |p| ==> pt[k] == p[k];
    assert forall k :: 0 <= k < |t| ==> pt[|p| + k] == t[k];
    if j == -1 {
      forall m | 0 <= m < |pt| ensures !Matches(pt[m], param) {
        if m >= |p| {
          assert pt[m] == t[m - |p|];
        }
      }
    } else {
      assert Matches(pt[|p| + j], param);
      forall m | 0 <= m < |p| + j ensures !Matches(pt[m], param) {
        if m >= |p| {
          assert pt[m] == t[m - |p|];
        }
      }
    }
  }

  /** The same shift, for Get: a prefix with no match does not change what
      is found. */
  lemma LookupPastAbsent(p: seq<Todo>, t: seq<Todo>, param: Option<int>)
    requires Absent(p, param)
    ensures Lookup(p + t, param) == Lookup(t, param)
  {
    FindIndexPastAbsent(p, t, param);
    var j := FindIndex(t, param);
    if j != -1 {
      assert (p + t)[|p| + j] == t[j];
    }
  }

  /** A Get for the id just deleted finds the next item after the deleted
      one that holds the same id, and is NotFound exactly when there is none. */
  lemma GetAfterDeleteNext(s: seq<Todo>, param: Option<int>)
    requires !Absent(s, param)
    ensures Lookup(Remove(s, param).0, param) == Lookup(s[FindIndex(s, param) + 1..], param)
    ensures Lookup(Remove(s, param).0, param) == NotFound <==> Absent(s[FindIndex(s, param) + 1..], param)
  {
    var i := FindIndex(s, param);
    var before, after := s[..i], s[i + 1..];
    assert Absent(before, param) by {
      forall k | 0 <= k < |before| ensures !Matches(before[k], param) {
        assert before[k] == s[k];
      }
    }
    LookupPastAbsent(before, after, param);
  }

  /** Without unique ids the same Get can still find an item: a delete
      removes only the first of two items sharing an id. A witness for
      `GetAfterDeleteNext`. */
  lemma GetAfterDeleteSharedId()
    ensures var s := [Todo(1, Some("a"), None), Todo(1, Some("b"), None)];
      Remove(s, Some(1)) == ([Todo(1, Some("b"), None)], Found(Todo(1, Some("a"), None))) &&
      Lookup(Remove(s, Some(1)).0, Some(1)) == Found(Todo(1, Some("b"), None))
  {
    var s := [Todo(1, Some("a"), None), Todo(1, Some("b"), None)];
    assert Matches(s[0], Some(1));
    assert FindIndex(s, Some(1)) == 0;
    assert Remove(s, Some(1)).0 == [s[1]];
    assert Matches([s[1]][0], Some(1));
  }

  // ---------- NotFound ----------

  /** Get, Update and Delete with an id no item holds, or one that did not
      parse, answer NotFound and leave the collection unchanged. */
  lemma MissingIdChangesNothing(s: seq<Todo>, param: Option<int>, body: Fields)
    requires Absent(s, param) || param.None?
    ensures Lookup(s, param) == NotFound
    ensures Change(s, param, body) == (s, NotFound)
    ensures Remove(s, param) == (s, NotFound)
  {
  }

  // ---------- Position-based ids ----------

  /** After n >= 2 creates on an empty store, deleting any item but the last
      and creating again assigns id n, which the surviving last item already
      holds: ids are no longer unique, and a Get for that id finds the older
      item, not the one just created. */
  lemma ReusedIdAfterDelete(bodies: seq<Fields>, k: int, more: Fields)
    requires 2 <= |bodies| && 1 <= k < |bodies|
    ensures var s := CreateAll([], bodies).0;
      var s1 := Remove(s, Some(k)).0;
      var s2 := Add(s1, more);
      && |s| == |bodies|
      && Remove(s, Some(k)).1 == Found(s[k - 1])
      && |s2| == |bodies|
      && s2[|s2| - 1] == Todo(|bodies|, more.title, more.description)
      && s2[|s2| - 2] == s[|bodies| - 1]
      && s2[|s2| - 2].id == |bodies|
      && !UniqueIds(s2)
      && Lookup(s2, Some(|bodies|)) == Found(s[|bodies| - 1])
  {
    FreshStoreIds(bodies);
    var n := |bodies|;
    var s := CreateAll([], bodies).0;
    assert Matches(s[k - 1], Some(k));
    assert FindIndex(s, Some(k)) == k - 1;
    DeleteFirstMatch(s, Some(k));
    var s1 := Remove(s, Some(k)).0;
    CreateAppends(s1, more);
    var s2 := Add(s1, more);
    assert s2[n - 2] == s1[n - 2];
    forall m | 0 <= m < n - 2 ensures !Matches(s2[m], Some(n)) {
      assert s2[m] == s2[..n - 1][m] == s1[m];
    }
    assert FindIndex(s2, Some(n)) == n - 2;
  }
}
