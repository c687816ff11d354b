/** A directory of files under a byte cap: what it holds, and dropping the least recently used until it fits. */
module Directory {
  import opened Common

  /** A file's size, when it was last referenced, and what it holds. */
  datatype Entry<D> = Entry(size: nat, stamp: nat, content: D)

  type Dir<F, D> = map<F, Entry<D>>

  // ----- sizes -----

  ghost function Total<F, D>(files: Dir<F, D>): nat {
    if files == map[] then 0
    else
      var f :| f in files;
      files[f].size + Total(files - {f})
  }

  lemma {:induction false} TotalWithout<F, D>(files: Dir<F, D>, f: F)
    requires f in files
    ensures Total(files) == files[f].size + Total(files - {f})
  {
    var g :| g in files && Total(files) == files[g].size + Total(files - {g});
    if g != f {
      TotalWithout(files - {g}, f);
      TotalWithout(files - {f}, g);
      assert files - {g} - {f} == files - {f} - {g};
    }
  }

  /** Fewer of the same files take no more room. */
  lemma {:induction false} TotalMonotone<F, D>(fewer: Dir<F, D>, more: Dir<F, D>)
    requires forall f :: f in fewer ==> f in more && more[f] == fewer[f]
    ensures Total(fewer) <= Total(more)
  {
    if fewer != map[] {
      var f :| f in fewer;
      TotalWithout(fewer, f);
      TotalWithout(more, f);
      TotalMonotone(fewer - {f}, more - {f});
    }
  }

  /** A file's size is added up once for each. */
  method Usage<F(==), D>(files: Dir<F, D>) returns (total: nat)
    ensures total == Total(files)
  {
    total := 0;
    var left := files;
    while left.Keys != {}
      invariant total + Total(left) == Total(files)
      decreases |left.Keys|
    {
      var f :| f in left;
      TotalWithout(left, f);
      total := total + left[f].size;
      left := left - {f};
    }
  }

  // ----- age -----

  ghost predicate ByAge<F(!new), D>(order: seq<F>, files: Dir<F, D>) {
    && Distinct(order)
    && (forall f :: f in order ==> f in files)
    && forall i, j :: 0 <= i < j < |order| ==> files[order[i]].stamp <= files[order[j]].stamp
  }

  lemma {:induction false} OldestExists<F, D>(files: Dir<F, D>, left: set<F>)
    requires left != {} && left <= files.Keys
    ensures exists f :: f in left && forall g :: g in left ==> files[f].stamp <= files[g].stamp
  {
    var f :| f in left;
    if left != {f} {
      OldestExists(files, left - {f});
      var g :| g in left - {f} && forall h :: h in left - {f} ==> files[g].stamp <= files[h].stamp;
      if files[f].stamp <= files[g].stamp {
        assert forall h :: h in left ==> files[f].stamp <= files[h].stamp;
      } else {
        assert forall h :: h in left ==> files[g].stamp <= files[h].stamp;
      }
    }
  }

  /** Some of the files, least recently referenced first. */
  method SortByAge<F(==,!new), D>(files: Dir<F, D>, some: set<F>) returns (order: seq<F>)
    requires some <= files.Keys
    ensures Elements(order) == some
    ensures ByAge(order, files)
  {
    order := [];
    var left := some;
    while left != {}
      invariant left <= some && ByAge(order, files)
      invariant forall f :: f in some <==> f in order || f in left
      invariant forall f, g :: f in order && g in left ==> f != g && files[f].stamp <= files[g].stamp
      decreases left
    {
      OldestExists(files, left);
      var f :| f in left && forall g :: g in left ==> files[f].stamp <= files[g].stamp;
      order := order + [f];
      left := left - {f};
    }
  }

  // ----- dropping -----

  /** The files dropped from the first `k` of an order, those that cannot be unlinked staying. */
  ghost function Doomed<F>(order: seq<F>, k: nat, locked: set<F>): set<F>
    requires k <= |order|
  {
    set f | f in order[..k] && f !in locked
  }

  /** The first `k` of the order were dropped, to the end of it or to the cap, the last one of need. */
  ghost predicate DroppedTo<F(!new), D>(was: Dir<F, D>, now: Dir<F, D>, order: seq<F>, k: nat, cap: nat, locked: set<F>) {
    && k <= |order| && now == was - Doomed(order, k, locked)
    && (k == |order| || Total(now) <= cap)
    && (now == was || exists f :: f in Doomed(order, k, locked) && f in was && Total(now) + was[f].size > cap)
  }

  lemma DoomedOneMore<F(!new)>(order: seq<F>, k: nat, locked: set<F>)
    requires k < |order| && Distinct(order)
    ensures Doomed(order, k + 1, locked) == Doomed(order, k, locked) + (if order[k] in locked then {} else {order[k]})
    ensures order[k] !in Doomed(order, k, locked)
  {
    assert order[..k + 1] == order[..k] + [order[k]];
  }

  /** Drops files in one order until the directory is under its cap. */
  method DropOldest<F(==,!new), D>(was: Dir<F, D>, order: seq<F>, total: nat, cap: nat, locked: set<F>)
    returns (now: Dir<F, D>, left: nat, ghost k: nat)
    requires total == Total(was) && Distinct(order) && forall f :: f in order ==> f in was
    ensures DroppedTo(was, now, order, k, cap, locked)
    ensures left == Total(now)
    ensures total <= cap ==> k == 0
  {
    now, left, k := was, total, 0;
    var i := 0;
    while i < |order|
      invariant 0 <= i <= |order| && k == i && left == Total(now)
      invariant now == was - Doomed(order, i, locked)
      invariant total <= cap ==> i == 0
      invariant now == was || exists f :: f in Doomed(order, i, locked) && f in was && Total(now) + was[f].size > cap
    {
      if left <= cap {
        return;
      }
      var f := order[i];
      DoomedOneMore(order, i, locked);
      if f !in locked {
        TotalWithout(now, f);
        left := left - now[f].size;
        now := now - {f};
        assert f in Doomed(order, i + 1, locked) && Total(now) + was[f].size > cap;
      }
      i := i + 1;
      k := i;
    }
  }

  /** What was dropped is no newer than what was left of the order and could have been. */
  lemma OldestFirst<F(!new), D>(was: Dir<F, D>, order: seq<F>, k: nat, locked: set<F>, f: F, g: F)
    requires ByAge(order, was) && k <= |order|
    requires f in Doomed(order, k, locked) && g in order && g !in Doomed(order, k, locked) && g !in locked
    ensures was[f].stamp <= was[g].stamp
  {
    var i :| 0 <= i < k && order[i] == f;
    var l :| 0 <= l < |order| && order[l] == g;
    assert forall x :: 0 <= x < k ==> order[x] in order[..k];
  }
}
