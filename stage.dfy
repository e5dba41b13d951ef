/** The Konva stage's child list, bottom to top, as the button handlers of
    src/client/main.js change it. Konva itself is not part of this model; its
    layer operations are stated here as assumptions about what they do to the
    parent's child list:
      - add appends a new layer on top;
      - moveUp / moveDown swap a child with its upper / lower neighbour, and do
        nothing when it is already at that end or has no parent;
      - moveToTop moves a child to the end, and does nothing without a parent;
      - remove takes a child out, and does nothing without a parent. */
module Stage {
  type NodeId = nat

  predicate Distinct(c: seq<NodeId>) {
    forall i, j :: 0 <= i < j < |c| ==> c[i] != c[j]
  }

  function IndexOf(c: seq<NodeId>, n: NodeId): (k: nat)
    requires n in c
    ensures k < |c| && c[k] == n && n !in c[..k]
  {
    if c[0] == n then 0
    else
      assert n in c[1..];
      var k := 1 + IndexOf(c[1..], n);
      assert c[..k] == [c[0]] + c[1..][..k - 1];
      k
  }

  lemma {:induction false} IndexOfDistinct(c: seq<NodeId>, i: nat)
    requires Distinct(c) && i < |c|
    ensures IndexOf(c, c[i]) == i
  {
    if i > 0 {
      assert c[0] != c[i];
      DistinctTail(c);
      assert c[1..][i - 1] == c[i];
      IndexOfDistinct(c[1..], i - 1);
    }
  }

  lemma DistinctTail(c: seq<NodeId>)
    requires Distinct(c) && c != []
    ensures Distinct(c[1..])
  {
    forall i, j | 0 <= i < j < |c[1..]| ensures c[1..][i] != c[1..][j] {
      assert c[1..][i] == c[i + 1] && c[1..][j] == c[j + 1];
    }
  }

  /** The children at i and i + 1 trade places. */
  function Swap(c: seq<NodeId>, i: nat): (r: seq<NodeId>)
    requires i + 1 < |c|
    ensures multiset(r) == multiset(c) && |r| == |c|
    ensures r[i] == c[i + 1] && r[i + 1] == c[i]
    ensures forall j :: 0 <= j < |c| && j != i && j != i + 1 ==> r[j] == c[j]
  {
    c[i := c[i + 1]][i + 1 := c[i]]
  }

  /** Node.moveUp: one place towards the top, unless at the top or detached. */
  function MoveUp(c: seq<NodeId>, n: NodeId): (r: seq<NodeId>)
    ensures multiset(r) == multiset(c) && |r| == |c|
    ensures n in c && IndexOf(c, n) < |c| - 1 ==> r == Swap(c, IndexOf(c, n))
    ensures !(n in c && IndexOf(c, n) < |c| - 1) ==> r == c
  {
    if n in c && IndexOf(c, n) < |c| - 1 then Swap(c, IndexOf(c, n)) else c
  }

  /** Node.moveDown: one place towards the bottom, unless at the bottom or detached. */
  function MoveDown(c: seq<NodeId>, n: NodeId): (r: seq<NodeId>)
    ensures multiset(r) == multiset(c) && |r| == |c|
    ensures n in c && IndexOf(c, n) > 0 ==> r == Swap(c, IndexOf(c, n) - 1)
    ensures !(n in c && IndexOf(c, n) > 0) ==> r == c
  {
    if n in c && IndexOf(c, n) > 0 then Swap(c, IndexOf(c, n) - 1) else c
  }

  /** Node.remove: the child leaves the list, the others close up in order. */
  function Remove(c: seq<NodeId>, n: NodeId): (r: seq<NodeId>)
    ensures n in c ==> multiset(r) == multiset(c) - multiset{n}
    ensures n in c ==> |r| == |c| - 1
    ensures n in c ==> forall k :: 0 <= k < |r| ==> r[k] == if k < IndexOf(c, n) then c[k] else c[k + 1]
    ensures n !in c ==> r == c
  {
    if n in c then
      var i := IndexOf(c, n);
      assert c == c[..i] + [n] + c[i + 1..];
      c[..i] + c[i + 1..]
    else c
  }

  /** Node.moveToTop: the child goes to the end, the others keep their order. */
  function MoveToTop(c: seq<NodeId>, n: NodeId): (r: seq<NodeId>)
    ensures n in c ==> r == Remove(c, n) + [n]
    ensures n !in c ==> r == c
    ensures multiset(r) == multiset(c)
  {
    if n in c then Remove(c, n) + [n] else c
  }

  // ---------------------------------------------------------------- lemmas

  lemma {:induction false} CountsOfDistinct(c: seq<NodeId>)
    requires Distinct(c)
    ensures forall x :: multiset(c)[x] <= 1
  {
    if c != [] {
      DistinctTail(c);
      CountsOfDistinct(c[1..]);
      assert c == [c[0]] + c[1..];
      assert c[0] !in c[1..] by {
        forall m | 0 <= m < |c[1..]| ensures c[1..][m] != c[0] {
          assert c[1..][m] == c[m + 1];
        }
      }
    }
  }

  lemma PairCount(r: seq<NodeId>, i: nat, j: nat)
    requires i < j < |r|
    ensures r[i] == r[j] ==> multiset(r)[r[i]] >= 2
  {
    assert r == r[..i] + [r[i]] + r[i + 1..j] + [r[j]] + r[j + 1..];
  }

  /** A list whose multiset is contained in that of a distinct list is distinct. */
  lemma DistinctBySubMultiset(c: seq<NodeId>, r: seq<NodeId>)
    requires Distinct(c) && multiset(r) <= multiset(c)
    ensures Distinct(r)
  {
    CountsOfDistinct(c);
    forall i, j | 0 <= i < j < |r| ensures r[i] != r[j] {
      PairCount(r, i, j);
      assert multiset(r)[r[i]] <= multiset(c)[r[i]];
    }
  }

  /** The handlers keep every layer on the stage once: no operation duplicates one. */
  lemma OperationsKeepDistinct(c: seq<NodeId>, n: NodeId)
    requires Distinct(c)
    ensures Distinct(MoveUp(c, n)) && Distinct(MoveDown(c, n)) && Distinct(MoveToTop(c, n))
    ensures Distinct(Remove(c, n))
  {
    DistinctBySubMultiset(c, MoveUp(c, n));
    DistinctBySubMultiset(c, MoveDown(c, n));
    DistinctBySubMultiset(c, MoveToTop(c, n));
    DistinctBySubMultiset(c, Remove(c, n));
  }

  /** stage.add of a new layer keeps the list distinct. */
  lemma AddKeepsDistinct(c: seq<NodeId>, n: NodeId)
    requires Distinct(c) && n !in c
    ensures Distinct(c + [n])
  {
    var r := c + [n];
    forall i, j | 0 <= i < j < |r| ensures r[i] != r[j] {
      assert r[i] == c[i];
      if j == |c| { assert r[i] in c; }
    }
  }

  /** moveDown undoes moveUp on a distinct child list, except when moveUp was the
      no-op at the top; and the other way round. */
  lemma MoveUpThenDown(c: seq<NodeId>, n: NodeId)
    requires Distinct(c) && n in c && IndexOf(c, n) < |c| - 1
    ensures MoveDown(MoveUp(c, n), n) == c
  {
    var i := IndexOf(c, n);
    var up := MoveUp(c, n);
    DistinctBySubMultiset(c, up);
    IndexOfDistinct(up, i + 1);
    assert up[i + 1] == n;
  }

  lemma MoveDownThenUp(c: seq<NodeId>, n: NodeId)
    requires Distinct(c) && n in c && IndexOf(c, n) > 0
    ensures MoveUp(MoveDown(c, n), n) == c
  {
    var i := IndexOf(c, n);
    var down := MoveDown(c, n);
    DistinctBySubMultiset(c, down);
    IndexOfDistinct(down, i - 1);
    assert down[i - 1] == n;
  }

  /** After moveToTop the node is the topmost child, and the others keep their
      relative order. */
  lemma MoveToTopIsTop(c: seq<NodeId>, n: NodeId)
    requires n in c
    ensures var r := MoveToTop(c, n); |r| == |c| && r[|r| - 1] == n && r[..|r| - 1] == Remove(c, n)
  {
    var i := IndexOf(c, n);
    assert c == c[..i] + [n] + c[i + 1..];
    assert |Remove(c, n)| == |c| - 1;
  }

  /** stage.toCanvas draws the visible children, bottom to top. */
  function Visible(c: seq<NodeId>, shown: map<NodeId, bool>): (r: seq<NodeId>)
    requires forall x :: x in c ==> x in shown
    ensures forall x :: x in r <==> x in c && shown[x]
  {
    if c == [] then []
    else
      assert forall x :: x in c <==> x == c[0] || x in c[1..];
      (if shown[c[0]] then [c[0]] else []) + Visible(c[1..], shown)
  }

  lemma {:induction false} IndexOfAppend(c: seq<NodeId>, n: NodeId, extra: seq<NodeId>)
    requires n in c
    ensures n in c + extra && IndexOf(c + extra, n) == IndexOf(c, n)
  {
    if c[0] != n {
      assert (c + extra)[1..] == c[1..] + extra;
      assert n in c[1..];
      IndexOfAppend(c[1..], n, extra);
    }
  }

  /** A layer added on top of a list and then covered by n again ends up just
      beneath n. */
  lemma MoveToTopAfterAdd(c: seq<NodeId>, n: NodeId, id: NodeId)
    requires n in c && id != n
    ensures MoveToTop(c + [id], n) == Remove(c, n) + [id, n]
  {
    IndexOfAppend(c, n, [id]);
    var i := IndexOf(c, n);
    var d := c + [id];
    assert d[..i] == c[..i];
    assert d[i + 1..] == c[i + 1..] + [id];
    assert Remove(d, n) == d[..i] + d[i + 1..];
    assert Remove(c, n) == c[..i] + c[i + 1..];
    calc {
      MoveToTop(d, n);
      Remove(d, n) + [n];
      c[..i] + (c[i + 1..] + [id]) + [n];
      (c[..i] + c[i + 1..]) + [id, n];
    }
  }
}
