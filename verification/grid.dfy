/** The uniform sub-sample grid of one pixel, flattened row by row the way
    the two sub-pixel loops of `RTRenderPass` (src/helper.ts) push their
    colours. `table(y, x)` is the value of sub-sample row y, column x. */
module SampleGrid {
  /** The first m entries of row y, left to right. */
  function Row<T>(table: (nat, nat) --> T, y: nat, m: nat): (row: seq<T>)
    requires forall x: nat :: x < m ==> table.requires(y, x)
    ensures |row| == m
    decreases m
  {
    if m == 0 then [] else Row(table, y, m - 1) + [table(y, m - 1)]
  }

  /** n rows of s entries, counted row by row; equal to `n * s`
      (`TimesIsProduct`), but free of a product, so that the solver does not
      reason about multiplication wherever a grid's length is mentioned. */
  function Times(n: nat, s: nat): nat {
    if n == 0 then 0 else Times(n - 1, s) + s
  }

  lemma {:induction false} TimesIsProduct(n: nat, s: nat)
    ensures Times(n, s) == n * s
  {
    if n > 0 {
      TimesIsProduct(n - 1, s);
      assert (n - 1) * s + s == n * s;
    }
  }

  /** The first n rows of s entries each, row after row. */
  function Rows<T>(table: (nat, nat) --> T, s: nat, n: nat): (cells: seq<T>)
    requires forall y: nat, x: nat :: y < n && x < s ==> table.requires(y, x)
    ensures |cells| == Times(n, s)
    decreases n
  {
    if n == 0 then [] else Rows(table, s, n - 1) + Row(table, n - 1, s)
  }

  lemma IndexInside(y: nat, x: nat, s: nat, n: nat)
    requires y < n && x < s
    ensures y * s + x < n * s
  {
    assert (y + 1) * s <= n * s;
  }

  /** One more row appends that row. */
  lemma RowsSnoc<T>(table: (nat, nat) --> T, s: nat, n: nat)
    requires forall y: nat, x: nat :: y <= n && x < s ==> table.requires(y, x)
    ensures Rows(table, s, n + 1) == Rows(table, s, n) + Row(table, n, s)
  {
  }

  lemma {:induction false} RowOrder<T>(table: (nat, nat) --> T, y: nat, m: nat, x: nat)
    requires forall x': nat :: x' < m ==> table.requires(y, x')
    requires x < m
    ensures Row(table, y, m)[x] == table(y, x)
    decreases m
  {
    if x < m - 1 {
      RowOrder(table, y, m - 1, x);
    }
  }

  /** Entry (y, x) sits at position `y * s + x` (row-major order). */
  lemma {:induction false} RowsOrder<T>(table: (nat, nat) --> T, s: nat, n: nat, y: nat, x: nat)
    requires forall y': nat, x': nat :: y' < n && x' < s ==> table.requires(y', x')
    requires y < n && x < s
    ensures y * s + x < |Rows(table, s, n)|
    ensures Rows(table, s, n)[y * s + x] == table(y, x)
    decreases n
  {
    var before := Rows(table, s, n - 1);
    var row := Row(table, n - 1, s);
    assert Rows(table, s, n) == before + row;
    TimesIsProduct(n, s);
    TimesIsProduct(n - 1, s);
    IndexInside(y, x, s, n);
    if y == n - 1 {
      assert y * s + x == |before| + x;
      RowOrder(table, y, s, x);
    } else {
      IndexInside(y, x, s, n - 1);
      RowsOrder(table, s, n - 1, y, x);
    }
  }

  /** A table with one value on the whole grid flattens to copies of it. */
  lemma {:induction false} RowsConstant<T>(table: (nat, nat) --> T, s: nat, n: nat, c: T)
    requires forall y: nat, x: nat :: y < n && x < s ==> table.requires(y, x)
    requires forall y: nat, x: nat :: y < n && x < s ==> table(y, x) == c
    ensures forall i :: 0 <= i < |Rows(table, s, n)| ==> Rows(table, s, n)[i] == c
    decreases n
  {
    if n > 0 {
      RowsConstant(table, s, n - 1, c);
      RowConstant(table, n - 1, s, c);
    }
  }

  lemma {:induction false} RowConstant<T>(table: (nat, nat) --> T, y: nat, m: nat, c: T)
    requires forall x: nat :: x < m ==> table.requires(y, x)
    requires forall x: nat :: x < m ==> table(y, x) == c
    ensures forall i :: 0 <= i < m ==> Row(table, y, m)[i] == c
    decreases m
  {
    if m > 0 {
      RowConstant(table, y, m - 1, c);
    }
  }

  /** Two tables that agree on the grid flatten to the same sequence. */
  lemma {:induction false} RowsAgree<T>(t1: (nat, nat) --> T, t2: (nat, nat) --> T, s: nat, n: nat)
    requires forall y: nat, x: nat :: y < n && x < s ==> t1.requires(y, x) && t2.requires(y, x)
    requires forall y: nat, x: nat :: y < n && x < s ==> t1(y, x) == t2(y, x)
    ensures Rows(t1, s, n) == Rows(t2, s, n)
    decreases n
  {
    if n > 0 {
      RowsAgree(t1, t2, s, n - 1);
      RowAgree(t1, t2, n - 1, s);
      RowsSnoc(t1, s, n - 1);
      RowsSnoc(t2, s, n - 1);
    }
  }

  lemma {:induction false} RowAgree<T>(t1: (nat, nat) --> T, t2: (nat, nat) --> T, y: nat, m: nat)
    requires forall x: nat :: x < m ==> t1.requires(y, x) && t2.requires(y, x)
    requires forall x: nat :: x < m ==> t1(y, x) == t2(y, x)
    ensures Row(t1, y, m) == Row(t2, y, m)
    decreases m
  {
    if m > 0 {
      RowAgree(t1, t2, y, m - 1);
    }
  }
}
