// Nodes that are shared by reference and grown in place, as the importer's
// lists are: a cell is known by its index, and a list keeps the indexes of its
// children. Children come after their parent, subtree after subtree.
module Arena {
  import Seqs

  datatype Rose<L> = Rose(info: L, children: seq<Rose<L>>)

  datatype Cell<L> = Cell(info: L, children: seq<nat>)

  function Bound(children: seq<nat>, i: nat, hi: nat): nat
    requires i < |children|
  {
    if i + 1 < |children| then children[i + 1] else hi
  }

  // The cells from `id` up to `hi` are the subtree of `id`, in preorder.
  predicate Ok<L>(cells: seq<Cell<L>>, id: nat, hi: nat)
    decreases hi - id
  {
    && id < hi <= |cells|
    && forall i :: 0 <= i < |cells[id].children| ==>
         && id < cells[id].children[i] < Bound(cells[id].children, i, hi) <= hi
         && Ok(cells, cells[id].children[i], Bound(cells[id].children, i, hi))
  }

  function RoseOf<L>(cells: seq<Cell<L>>, id: nat, hi: nat): Rose<L>
    requires Ok(cells, id, hi)
    decreases hi - id
  {
    var children := cells[id].children;
    Rose(cells[id].info,
         seq(|children|, i requires 0 <= i < |children| => RoseOf(cells, children[i], Bound(children, i, hi))))
  }

  ghost predicate Agree<L>(a: seq<Cell<L>>, b: seq<Cell<L>>, lo: nat, hi: nat) {
    hi <= |a| && hi <= |b| && forall i :: lo <= i < hi ==> a[i] == b[i]
  }

  // What happens elsewhere does not touch a subtree.
  lemma {:induction false} Untouched<L>(a: seq<Cell<L>>, b: seq<Cell<L>>, id: nat, hi: nat)
    requires Ok(a, id, hi) && Agree(a, b, id, hi)
    ensures Ok(b, id, hi) && RoseOf(b, id, hi) == RoseOf(a, id, hi)
    decreases hi - id
  {
    var children := a[id].children;
    forall i | 0 <= i < |children|
      ensures Ok(b, children[i], Bound(children, i, hi))
      ensures RoseOf(b, children[i], Bound(children, i, hi)) == RoseOf(a, children[i], Bound(children, i, hi))
    {
      Untouched(a, b, children[i], Bound(children, i, hi));
    }
  }

  // ----- down the right spine -----

  predicate Reaches<L>(cells: seq<Cell<L>>, id: nat, depth: nat)
    requires Ok(cells, id, |cells|)
    decreases depth
  {
    depth == 0 ||
    (cells[id].children != [] && Reaches(cells, cells[id].children[|cells[id].children| - 1], depth - 1))
  }

  function Deep<L>(cells: seq<Cell<L>>, id: nat, depth: nat): (r: nat)
    requires Ok(cells, id, |cells|) && Reaches(cells, id, depth)
    ensures id <= r < |cells|
    decreases depth
  {
    if depth == 0 then id else Deep(cells, cells[id].children[|cells[id].children| - 1], depth - 1)
  }

  predicate Descends<L>(rose: Rose<L>, depth: nat)
    decreases depth
  {
    depth == 0 || (rose.children != [] && Descends(rose.children[|rose.children| - 1], depth - 1))
  }

  function AddChildAt<L>(rose: Rose<L>, depth: nat, child: Rose<L>): Rose<L>
    requires Descends(rose, depth)
    decreases depth
  {
    var n := |rose.children|;
    if depth == 0 then rose.(children := rose.children + [child])
    else rose.(children := rose.children[..n - 1] + [AddChildAt(rose.children[n - 1], depth - 1, child)])
  }

  // Appending a child, with new cells at the end of the arena, to the node at
  // some depth on the right spine.
  ghost predicate Appended<L>(a: seq<Cell<L>>, b: seq<Cell<L>>, at: nat) {
    && at < |a| < |b|
    && b[at] == a[at].(children := a[at].children + [|a|])
    && (forall i :: 0 <= i < |a| && i != at ==> b[i] == a[i])
    && Ok(b, |a|, |b|)
  }

  lemma AppendHere<L>(a: seq<Cell<L>>, b: seq<Cell<L>>, id: nat)
    requires Ok(a, id, |a|) && Appended(a, b, id)
    ensures Ok(b, id, |b|)
    ensures RoseOf(b, id, |b|) == AddChildAt(RoseOf(a, id, |a|), 0, RoseOf(b, |a|, |b|))
  {
    var before, after := a[id].children, b[id].children;
    forall i | 0 <= i < |after|
      ensures id < after[i] < Bound(after, i, |b|) <= |b| && Ok(b, after[i], Bound(after, i, |b|))
      ensures i < |before| ==> RoseOf(b, after[i], Bound(after, i, |b|)) == RoseOf(a, before[i], Bound(before, i, |a|))
    {
      if i < |before| {
        assert Bound(after, i, |b|) == Bound(before, i, |a|);
        Untouched(a, b, before[i], Bound(before, i, |a|));
      }
    }
    var grown := RoseOf(b, id, |b|).children;
    assert grown == RoseOf(a, id, |a|).children + [RoseOf(b, |a|, |b|)];
  }

  lemma AppendUnder<L>(a: seq<Cell<L>>, b: seq<Cell<L>>, id: nat, last: Rose<L>)
    requires Ok(a, id, |a|) && |a| <= |b| && a[id].children != [] && b[id] == a[id]
    requires var c := a[id].children[|a[id].children| - 1];
             && Agree(a, b, id, c) && Ok(b, c, |b|) && RoseOf(b, c, |b|) == last
    ensures Ok(b, id, |b|)
    ensures var n := |a[id].children|;
            RoseOf(b, id, |b|)
            == RoseOf(a, id, |a|).(children := RoseOf(a, id, |a|).children[..n - 1] + [last])
  {
    var children := a[id].children;
    var n := |children|;
    forall i | 0 <= i < n
      ensures id < children[i] < Bound(children, i, |b|) <= |b| && Ok(b, children[i], Bound(children, i, |b|))
      ensures i < n - 1 ==> RoseOf(b, children[i], Bound(children, i, |b|)) == RoseOf(a, children[i], Bound(children, i, |a|))
    {
      if i < n - 1 {
        BelowLast(a, id, i);
        Untouched(a, b, children[i], Bound(children, i, |a|));
      }
    }
    var now := RoseOf(b, id, |b|).children;
    assert now == RoseOf(a, id, |a|).children[..n - 1] + [last];
  }

  // Every child but the last ends where the last begins, or before.
  lemma {:induction false} BelowLast<L>(cells: seq<Cell<L>>, id: nat, i: nat)
    requires Ok(cells, id, |cells|) && i + 1 < |cells[id].children|
    ensures Bound(cells[id].children, i, |cells|) <= cells[id].children[|cells[id].children| - 1]
    decreases |cells[id].children| - i
  {
    if i + 2 < |cells[id].children| {
      BelowLast(cells, id, i + 1);
    }
  }

  lemma {:induction false} AppendDeep<L>(a: seq<Cell<L>>, b: seq<Cell<L>>, id: nat, depth: nat)
    requires Ok(a, id, |a|) && Reaches(a, id, depth) && Appended(a, b, Deep(a, id, depth))
    ensures Ok(b, id, |b|)
    ensures Descends(RoseOf(a, id, |a|), depth)
    ensures RoseOf(b, id, |b|) == AddChildAt(RoseOf(a, id, |a|), depth, RoseOf(b, |a|, |b|))
    decreases depth
  {
    if depth == 0 {
      AppendHere(a, b, id);
    } else {
      var c := a[id].children[|a[id].children| - 1];
      AppendDeep(a, b, c, depth - 1);
      AppendUnder(a, b, id, RoseOf(b, c, |b|));
    }
  }

  // Nodes above the one that grew are still on the spine.
  lemma {:induction false} SpineAfter<L>(a: seq<Cell<L>>, b: seq<Cell<L>>, id: nat, depth: nat, k: nat)
    requires Ok(a, id, |a|) && Reaches(a, id, depth) && Appended(a, b, Deep(a, id, depth))
    requires k <= depth + 1 && Ok(b, id, |b|)
    ensures Reaches(b, id, k)
    ensures k <= depth ==> Reaches(a, id, k) && Deep(b, id, k) == Deep(a, id, k)
    ensures k == depth + 1 ==> Deep(b, id, k) == |a|
    decreases depth
  {
    if depth > 0 {
      var c := a[id].children[|a[id].children| - 1];
      assert b[id] == a[id];
      if k > 0 {
        SpineAfter(a, b, c, depth - 1, k - 1);
      }
    }
  }

  lemma {:induction false} DeepFurther<L>(cells: seq<Cell<L>>, id: nat, d: nat, e: nat)
    requires Ok(cells, id, |cells|) && Reaches(cells, id, d) && Ok(cells, Deep(cells, id, d), |cells|)
    requires Reaches(cells, Deep(cells, id, d), e)
    ensures Reaches(cells, id, d + e) && Deep(cells, id, d + e) == Deep(cells, Deep(cells, id, d), e)
    decreases d
  {
    if d > 0 {
      DeepFurther(cells, cells[id].children[|cells[id].children| - 1], d - 1, e);
    }
  }

  lemma {:induction false} DeepIsOk<L>(cells: seq<Cell<L>>, id: nat, d: nat)
    requires Ok(cells, id, |cells|) && Reaches(cells, id, d)
    ensures Ok(cells, Deep(cells, id, d), |cells|)
    decreases d
  {
    if d > 0 {
      DeepIsOk(cells, cells[id].children[|cells[id].children| - 1], d - 1);
    }
  }
}
