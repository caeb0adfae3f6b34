/**
  Keyset paging over marks: the row `(sort key, ..., tiebreak)` a query orders by and a
  cursor is compared with. The same walk serves alerts and groups.
 */
module Keyset {
  import opened Prelude
  import opened Ordering

  datatype Atom = Num(n: int) | Word(text: string)

  type Mark = seq<Atom>

  /** The database's text order. */
  type Collation = (string, string) -> bool

  datatype Order = Order(collation: Collation, descending: bool)

  predicate AtomLe(c: Collation, a: Atom, b: Atom)
  {
    if a.Num? && b.Num? then a.n <= b.n
    else if a.Word? && b.Word? then c(a.text, b.text)
    else a.Num?
  }

  /** Row comparison: the first column that differs decides. */
  predicate MarkLe(c: Collation, a: Mark, b: Mark)
  {
    a == [] || (b != [] && (if a[0] == b[0] then MarkLe(c, a[1..], b[1..]) else AtomLe(c, a[0], b[0])))
  }

  /** `a` is listed no later than `b`. */
  predicate Le(o: Order, a: Mark, b: Mark)
  {
    if o.descending then MarkLe(o.collation, b, a) else MarkLe(o.collation, a, b)
  }

  function LeOf(o: Order): (le: (Mark, Mark) -> bool) { (a, b) => Le(o, a, b) }

  predicate Precedes(o: Order, a: Mark, b: Mark) { Le(o, a, b) && a != b }

  // ---------------------------------------------------------------- marks are totally ordered

  lemma AtomTotal(c: Collation, a: Atom, b: Atom)
    requires TotalOrder(c)
    ensures AtomLe(c, a, b) || AtomLe(c, b, a)
    ensures AtomLe(c, a, b) && AtomLe(c, b, a) ==> a == b
  {
  }

  lemma AtomTransitive(c: Collation, x: Atom, y: Atom, z: Atom)
    requires TotalOrder(c) && AtomLe(c, x, y) && AtomLe(c, y, z)
    ensures AtomLe(c, x, z)
  {
  }

  lemma {:induction false} MarkTotal(c: Collation, a: Mark, b: Mark)
    requires TotalOrder(c)
    ensures MarkLe(c, a, b) || MarkLe(c, b, a)
    ensures MarkLe(c, a, b) && MarkLe(c, b, a) ==> a == b
  {
    if a != [] && b != [] {
      AtomTotal(c, a[0], b[0]);
      if a[0] == b[0] {
        MarkTotal(c, a[1..], b[1..]);
        assert a == [a[0]] + a[1..] && b == [b[0]] + b[1..];
      }
    }
  }

  lemma {:induction false} MarkTransitive(c: Collation, x: Mark, y: Mark, z: Mark)
    requires TotalOrder(c) && MarkLe(c, x, y) && MarkLe(c, y, z)
    ensures MarkLe(c, x, z)
  {
    if x != [] && y != [] && z != [] {
      if x[0] == y[0] && y[0] == z[0] {
        MarkTransitive(c, x[1..], y[1..], z[1..]);
      } else if x[0] != y[0] && y[0] != z[0] {
        AtomTransitive(c, x[0], y[0], z[0]);
        AtomTotal(c, x[0], y[0]);
      }
    }
  }

  lemma LeTransitive(o: Order, a: Mark, b: Mark, c: Mark)
    requires TotalOrder(o.collation) && Le(o, a, b) && Le(o, b, c)
    ensures Le(o, a, c)
  {
    if o.descending {
      MarkTransitive(o.collation, c, b, a);
    } else {
      MarkTransitive(o.collation, a, b, c);
    }
  }

  lemma LeIsTotalOrder(o: Order)
    requires TotalOrder(o.collation)
    ensures TotalOrder(LeOf(o))
  {
    forall a, b ensures (Le(o, a, b) || Le(o, b, a)) && (Le(o, a, b) && Le(o, b, a) ==> a == b) {
      MarkTotal(o.collation, a, b);
    }
    forall a, b, c | Le(o, a, b) && Le(o, b, c) ensures Le(o, a, c) {
      LeTransitive(o, a, b, c);
    }
  }

  lemma PrecedesTransitive(o: Order, a: Mark, b: Mark, c: Mark)
    requires TotalOrder(o.collation) && Precedes(o, a, b) && Precedes(o, b, c)
    ensures Precedes(o, a, c)
  {
    LeTransitive(o, a, b, c);
    MarkTotal(o.collation, a, b);
  }

  lemma PrecedesIsStrict(o: Order, a: Mark, b: Mark)
    requires TotalOrder(o.collation)
    ensures !(Precedes(o, a, b) && Precedes(o, b, a))
    ensures Precedes(o, a, b) || Precedes(o, b, a) || a == b
  {
    MarkTotal(o.collation, a, b);
  }

  // ---------------------------------------------------------------- listings

  ghost predicate Strict(o: Order, s: seq<Mark>)
  {
    forall i, j | 0 <= i < j < |s| :: Precedes(o, s[i], s[j])
  }

  lemma {:induction false} MultiplicityOne<T>(s: seq<T>, x: T)
    requires NoRepeats(s)
    ensures multiset(s)[x] <= 1
  {
    if s != [] {
      var front, last := s[..|s| - 1], s[|s| - 1];
      assert s == front + [last];
      MultiplicityOne(front, x);
      assert last !in front;
    }
  }

  lemma RepeatMultiplies<T>(s: seq<T>, i: nat, j: nat)
    requires i < j < |s| && s[i] == s[j]
    ensures multiset(s)[s[i]] >= 2
  {
    assert s == s[..j] + s[j..];
    assert s[..j][i] == s[i] && s[j..][0] == s[j];
  }

  /** ORDER BY over distinct marks leaves a strictly ordered listing of exactly those marks. */
  lemma OrderedStrictly(o: Order, marks: seq<Mark>)
    requires TotalOrder(o.collation) && NoRepeats(marks)
    ensures Strict(o, Sort(LeOf(o), marks))
    ensures multiset(Sort(LeOf(o), marks)) == multiset(marks)
  {
    var s := Sort(LeOf(o), marks);
    LeIsTotalOrder(o);
    SortSorts(LeOf(o), marks);
    SortContents(LeOf(o), marks);
    forall i, j | 0 <= i < j < |s| ensures Precedes(o, s[i], s[j]) {
      assert LeOf(o)(s[i], s[j]);
      if s[i] == s[j] {
        RepeatMultiplies(s, i, j);
        MultiplicityOne(marks, s[i]);
      }
    }
  }

  /** `WHERE mark > cursor`, in listing order. */
  function After(o: Order, s: seq<Mark>, cursor: Mark): (r: seq<Mark>)
  {
    if s == [] then []
    else
      var rest := After(o, s[..|s| - 1], cursor);
      if Precedes(o, cursor, s[|s| - 1]) then rest + [s[|s| - 1]] else rest
  }

  lemma {:induction false} AfterIsFrom(o: Order, s: seq<Mark>, cursor: Mark, k: nat)
    requires k < |After(o, s, cursor)|
    ensures After(o, s, cursor)[k] in s
  {
    if k < |After(o, s[..|s| - 1], cursor)| {
      AfterIsFrom(o, s[..|s| - 1], cursor, k);
    }
  }

  lemma {:induction false} NothingAfter(o: Order, s: seq<Mark>, cursor: Mark)
    requires forall q | 0 <= q < |s| :: !Precedes(o, cursor, s[q])
    ensures After(o, s, cursor) == []
  {
    if s != [] {
      NothingAfter(o, s[..|s| - 1], cursor);
    }
  }

  /** What any cursor leaves of a listing is one of its tails. */
  lemma {:induction false} AfterIsTail(o: Order, s: seq<Mark>, cursor: Mark) returns (m: nat)
    requires TotalOrder(o.collation) && Strict(o, s)
    ensures m <= |s| && After(o, s, cursor) == s[m..]
    ensures forall q | 0 <= q < |s| :: Precedes(o, cursor, s[q]) <==> m <= q
  {
    if s == [] {
      m := 0;
    } else {
      var front, last := s[..|s| - 1], s[|s| - 1];
      if Precedes(o, cursor, last) {
        m := AfterIsTail(o, front, cursor);
        assert front[m..] + [last] == s[m..];
        assert forall q | 0 <= q < |front| :: front[q] == s[q];
      } else {
        m := |s|;
        forall q | 0 <= q < |s| ensures !Precedes(o, cursor, s[q]) {
          if q < |s| - 1 && Precedes(o, cursor, s[q]) {
            PrecedesTransitive(o, cursor, s[q], last);
          }
        }
        NothingAfter(o, s, cursor);
      }
    }
  }

  // ---------------------------------------------------------------- pages

  datatype Page = Page(items: seq<Mark>, next: Option<Mark>)

  function Remaining(o: Order, s: seq<Mark>, cursor: Option<Mark>): (r: seq<Mark>)
  {
    if cursor.None? then s else After(o, s, cursor.value)
  }

  /** One row more than asked for decides whether there is a next cursor. `cur` is the mark a client's cursor
      comes back as, for the row it was made from. */
  function Cut(rest: seq<Mark>, limit: nat, cur: Mark -> Mark): (page: Page)
    requires 0 < limit
    ensures |page.items| <= limit
  {
    if |rest| > limit then Page(rest[..limit], Some(cur(rest[limit - 1]))) else Page(rest, None)
  }

  /** One page. */
  function Fetch(o: Order, s: seq<Mark>, cursor: Option<Mark>, limit: nat, cur: Mark -> Mark): (page: Page)
    requires 0 < limit
    ensures |page.items| <= limit
  {
    Cut(Remaining(o, s, cursor), limit, cur)
  }

  /** A client following next-page cursors: what it has seen, and where it goes next, if anywhere. */
  datatype Walk = Going(seen: seq<Mark>, cursor: Option<Mark>) | Done(seen: seq<Mark>)

  function Turn(o: Order, s: seq<Mark>, limit: nat, cur: Mark -> Mark, w: Walk): (r: Walk)
    requires 0 < limit
  {
    if w.Done? then w
    else
      var page := Fetch(o, s, w.cursor, limit, cur);
      if page.next.Some? then Going(w.seen + page.items, page.next) else Done(w.seen + page.items)
  }

  function WalkPages(o: Order, s: seq<Mark>, limit: nat, cur: Mark -> Mark, n: nat): (w: Walk)
    requires 0 < limit
  {
    if n == 0 then Going([], None) else Turn(o, s, limit, cur, WalkPages(o, s, limit, cur, n - 1))
  }

  /** The cursor made from row `p` leaves exactly the rows after `p`. */
  ghost predicate Sound(o: Order, s: seq<Mark>, cur: Mark -> Mark, p: nat)
    requires p < |s|
  {
    forall q | 0 <= q < |s| :: Precedes(o, cur(s[p]), s[q]) <==> p < q
  }

  /** How many rows `n` full pages hold. */
  function RowsIn(n: nat, limit: nat): (k: nat)
    ensures 0 < limit ==> n <= k
    ensures n == 0 ==> k == 0
  {
    if n == 0 then 0 else RowsIn(n - 1, limit) + limit
  }

  /** The row that ends page `n`, if anything follows it, makes a sound cursor. */
  ghost predicate SoundAt(o: Order, s: seq<Mark>, limit: nat, cur: Mark -> Mark, n: nat)
  {
    0 < RowsIn(n, limit) < |s| ==> Sound(o, s, cur, RowsIn(n, limit) - 1)
  }

  ghost predicate AllSound(o: Order, s: seq<Mark>, limit: nat, cur: Mark -> Mark)
  {
    forall n: nat :: SoundAt(o, s, limit, cur, n)
  }

  /** The first `n` pages, end to end, are the first rows of the listing. */
  ghost predicate FaithfulAt(o: Order, s: seq<Mark>, limit: nat, cur: Mark -> Mark, n: nat)
    requires 0 < limit
  {
    WalkPages(o, s, limit, cur, n).seen == s[..Min(RowsIn(n, limit), |s|)]
  }

  ghost predicate Faithful(o: Order, s: seq<Mark>, limit: nat, cur: Mark -> Mark)
    requires 0 < limit
  {
    forall n: nat :: FaithfulAt(o, s, limit, cur, n)
  }

  /** Having got to row `k`: done with everything, or holding the cursor of the row before it. */
  ghost predicate InStep(s: seq<Mark>, cur: Mark -> Mark, k: nat, w: Walk)
  {
    if w.Done? then w.seen == s && |s| <= k
    else
      && (k == 0 || k < |s|)
      && w.seen == s[..k]
      && w.cursor == if k == 0 then None else Some(cur(s[k - 1]))
  }

  lemma SoundRemaining(o: Order, s: seq<Mark>, cur: Mark -> Mark, p: nat)
    requires TotalOrder(o.collation) && Strict(o, s) && p < |s| && Sound(o, s, cur, p)
    ensures After(o, s, cur(s[p])) == s[p + 1..]
  {
    var m := AfterIsTail(o, s, cur(s[p]));
    assert !Precedes(o, cur(s[p]), s[p]);
    assert p + 1 < |s| ==> Precedes(o, cur(s[p]), s[p + 1]);
    assert m == p + 1;
  }

  lemma TakesMore<T>(s: seq<T>, k: nat, limit: nat)
    requires k <= |s|
    ensures |s| - k <= limit ==> s[..k] + s[k..] == s
    ensures |s| - k > limit ==> s[..k] + s[k..][..limit] == s[..k + limit]
  {
  }

  lemma TurnFrom(o: Order, s: seq<Mark>, limit: nat, cur: Mark -> Mark, k: nat, w: Walk)
    requires 0 < limit && w.Going? && k <= |s| && w.seen == s[..k] && Remaining(o, s, w.cursor) == s[k..]
    ensures InStep(s, cur, k + limit, Turn(o, s, limit, cur, w))
  {
    TakesMore(s, k, limit);
    assert |s| - k > limit ==> s[k..][limit - 1] == s[k + limit - 1];
  }

  lemma TurnKeepsInStep(o: Order, s: seq<Mark>, limit: nat, cur: Mark -> Mark, k: nat, w: Walk)
    requires TotalOrder(o.collation) && Strict(o, s) && 0 < limit && InStep(s, cur, k, w)
    requires 0 < k < |s| ==> Sound(o, s, cur, k - 1)
    ensures InStep(s, cur, k + limit, Turn(o, s, limit, cur, w))
  {
    if w.Going? {
      if k > 0 {
        SoundRemaining(o, s, cur, k - 1);
      }
      assert Remaining(o, s, w.cursor) == s[k..];
      TurnFrom(o, s, limit, cur, k, w);
    }
  }

  lemma WalkNext(o: Order, s: seq<Mark>, limit: nat, cur: Mark -> Mark, n: nat)
    requires TotalOrder(o.collation) && Strict(o, s) && 0 < limit && SoundAt(o, s, limit, cur, n)
    requires InStep(s, cur, RowsIn(n, limit), WalkPages(o, s, limit, cur, n))
    ensures InStep(s, cur, RowsIn(n + 1, limit), WalkPages(o, s, limit, cur, n + 1))
  {
    TurnKeepsInStep(o, s, limit, cur, RowsIn(n, limit), WalkPages(o, s, limit, cur, n));
  }

  lemma {:induction false} WalkInStep(o: Order, s: seq<Mark>, limit: nat, cur: Mark -> Mark, n: nat)
    requires TotalOrder(o.collation) && Strict(o, s) && 0 < limit
    requires forall m: nat | m < n :: SoundAt(o, s, limit, cur, m)
    ensures InStep(s, cur, RowsIn(n, limit), WalkPages(o, s, limit, cur, n))
  {
    if n == 0 {
      assert s[..0] == [];
    } else {
      WalkInStep(o, s, limit, cur, n - 1);
      assert SoundAt(o, s, limit, cur, n - 1);
      WalkNext(o, s, limit, cur, n - 1);
    }
  }

  lemma InStepIsFaithful(o: Order, s: seq<Mark>, limit: nat, cur: Mark -> Mark, n: nat)
    requires 0 < limit && InStep(s, cur, RowsIn(n, limit), WalkPages(o, s, limit, cur, n))
    ensures FaithfulAt(o, s, limit, cur, n)
  {
    assert s[..|s|] == s;
  }

  /** With sound cursors the walk ends, having seen the whole listing, in order, nothing lost or repeated. */
  lemma SoundWalkEnds(o: Order, s: seq<Mark>, limit: nat, cur: Mark -> Mark)
    requires TotalOrder(o.collation) && Strict(o, s) && 0 < limit && AllSound(o, s, limit, cur)
    ensures Faithful(o, s, limit, cur)
    ensures WalkPages(o, s, limit, cur, |s| + 1) == Done(s)
  {
    forall n: nat ensures FaithfulAt(o, s, limit, cur, n) {
      WalkInStep(o, s, limit, cur, n);
      InStepIsFaithful(o, s, limit, cur, n);
    }
    WalkInStep(o, s, limit, cur, |s| + 1);
  }

  /** If the page after a boundary is the right one, the boundary's cursor was sound. */
  lemma RightPageMeansSound(o: Order, s: seq<Mark>, limit: nat, cur: Mark -> Mark, k: nat, w: Walk)
    requires TotalOrder(o.collation) && Strict(o, s) && 0 < limit && 0 < k < |s| && InStep(s, cur, k, w)
    requires Turn(o, s, limit, cur, w).seen == s[..Min(k + limit, |s|)]
    ensures Sound(o, s, cur, k - 1)
  {
    var page := Fetch(o, s, w.cursor, limit, cur);
    var end := Min(k + limit, |s|);
    assert s[..k] + page.items == s[..end];
    assert page.items == s[k..end] by {
      assert (s[..k] + page.items)[k..] == page.items;
      assert s[..end][k..] == s[k..end];
    }
    var m := AfterIsTail(o, s, cur(s[k - 1]));
    assert page.items[0] == s[k];
    assert m < |s| && s[m] == s[k];
    assert forall i, j | 0 <= i < j < |s| :: s[i] != s[j];
    assert m == k;
  }

  lemma NextIsSound(o: Order, s: seq<Mark>, limit: nat, cur: Mark -> Mark, n: nat)
    requires TotalOrder(o.collation) && Strict(o, s) && 0 < limit && FaithfulAt(o, s, limit, cur, n + 1)
    requires forall m: nat | m < n :: SoundAt(o, s, limit, cur, m)
    ensures SoundAt(o, s, limit, cur, n)
  {
    if 0 < RowsIn(n, limit) < |s| {
      WalkInStep(o, s, limit, cur, n);
      RightPageMeansSound(o, s, limit, cur, RowsIn(n, limit), WalkPages(o, s, limit, cur, n));
    }
  }

  lemma {:induction false} FaithfulMeansSound(o: Order, s: seq<Mark>, limit: nat, cur: Mark -> Mark, n: nat)
    requires TotalOrder(o.collation) && Strict(o, s) && 0 < limit && Faithful(o, s, limit, cur)
    ensures forall m: nat | m < n :: SoundAt(o, s, limit, cur, m)
  {
    if n > 0 {
      FaithfulMeansSound(o, s, limit, cur, n - 1);
      assert FaithfulAt(o, s, limit, cur, n);
      NextIsSound(o, s, limit, cur, n - 1);
    }
  }

  /** Following next-page cursors lists exactly the ordered rows, page by page, if and only if every row
      that ends a page makes a cursor that leaves exactly the rows after it. */
  lemma WalkExactly(o: Order, s: seq<Mark>, limit: nat, cur: Mark -> Mark)
    requires TotalOrder(o.collation) && Strict(o, s) && 0 < limit
    ensures Faithful(o, s, limit, cur) <==> AllSound(o, s, limit, cur)
  {
    if AllSound(o, s, limit, cur) {
      SoundWalkEnds(o, s, limit, cur);
    }
    if Faithful(o, s, limit, cur) {
      forall n: nat ensures SoundAt(o, s, limit, cur, n) {
        FaithfulMeansSound(o, s, limit, cur, n + 1);
      }
    }
  }

  // ---------------------------------------------------------------- when the walk ends

  ghost predicate Ends(o: Order, s: seq<Mark>, limit: nat, cur: Mark -> Mark)
    requires 0 < limit
  {
    exists n: nat :: WalkPages(o, s, limit, cur, n) == Done(s)
  }

  /** A walk only ever adds to what it has seen: full pages while it goes on, at most one short one at the end. */
  lemma {:induction false} WalkGrows(o: Order, s: seq<Mark>, limit: nat, cur: Mark -> Mark, m: nat, n: nat)
    requires 0 < limit && m <= n
    ensures WalkPages(o, s, limit, cur, m).seen <= WalkPages(o, s, limit, cur, n).seen
    ensures WalkPages(o, s, limit, cur, m).Done? ==> WalkPages(o, s, limit, cur, n) == WalkPages(o, s, limit, cur, m)
  {
    if m < n {
      WalkGrows(o, s, limit, cur, m, n - 1);
    }
  }

  lemma {:induction false} WalkLength(o: Order, s: seq<Mark>, limit: nat, cur: Mark -> Mark, n: nat)
    requires 0 < limit
    ensures |WalkPages(o, s, limit, cur, n).seen| <= RowsIn(n, limit)
    ensures WalkPages(o, s, limit, cur, n).Going? ==> |WalkPages(o, s, limit, cur, n).seen| == RowsIn(n, limit)
  {
    if n > 0 {
      WalkLength(o, s, limit, cur, n - 1);
    }
  }

  lemma {:induction false} RowsInGrows(m: nat, n: nat, limit: nat)
    requires m <= n
    ensures RowsIn(m, limit) <= RowsIn(n, limit)
  {
    if m < n {
      RowsInGrows(m, n - 1, limit);
    }
  }

  /** A walk that ends having seen the listing has been faithful all along. */
  lemma EndedFaithfully(o: Order, s: seq<Mark>, limit: nat, cur: Mark -> Mark, n: nat, m: nat)
    requires 0 < limit && WalkPages(o, s, limit, cur, n) == Done(s)
    ensures FaithfulAt(o, s, limit, cur, m)
  {
    WalkLength(o, s, limit, cur, m);
    WalkLength(o, s, limit, cur, n);
    assert s[..|s|] == s;
    if m <= n {
      WalkGrows(o, s, limit, cur, m, n);
    } else {
      WalkGrows(o, s, limit, cur, n, m);
      RowsInGrows(n, m, limit);
    }
  }

  /** Following cursors ends with exactly the listing if and only if every row ending a page makes a sound one. */
  lemma WalkEndsExactly(o: Order, s: seq<Mark>, limit: nat, cur: Mark -> Mark)
    requires TotalOrder(o.collation) && Strict(o, s) && 0 < limit
    ensures Ends(o, s, limit, cur) <==> AllSound(o, s, limit, cur)
  {
    if AllSound(o, s, limit, cur) {
      SoundWalkEnds(o, s, limit, cur);
    }
    if Ends(o, s, limit, cur) {
      var n: nat :| WalkPages(o, s, limit, cur, n) == Done(s);
      forall m: nat ensures FaithfulAt(o, s, limit, cur, m) {
        EndedFaithfully(o, s, limit, cur, n, m);
      }
      WalkExactly(o, s, limit, cur);
    }
  }

  /** A cursor that leaves more than a page, and whose page ends in a row with that same cursor, is followed forever. */
  lemma {:induction false} WalkRepeats(o: Order, s: seq<Mark>, limit: nat, cur: Mark -> Mark, cursor: Mark, n: nat)
    requires 0 < limit < |s| && cur(s[limit - 1]) == cursor
    requires limit < |After(o, s, cursor)| && cur(After(o, s, cursor)[limit - 1]) == cursor
    ensures WalkPages(o, s, limit, cur, n).Going?
    ensures 0 < n ==> WalkPages(o, s, limit, cur, n).cursor == Some(cursor)
  {
    if n > 0 {
      WalkRepeats(o, s, limit, cur, cursor, n - 1);
    }
  }

  /** A cursor that is its row's own mark is sound. */
  lemma OwnMarkIsSound(o: Order, s: seq<Mark>, cur: Mark -> Mark, p: nat)
    requires TotalOrder(o.collation) && Strict(o, s) && p < |s| && cur(s[p]) == s[p]
    ensures Sound(o, s, cur, p)
  {
    forall q | 0 <= q < |s| ensures Precedes(o, cur(s[p]), s[q]) <==> p < q {
      if q < p {
        assert Precedes(o, s[q], s[p]);
        PrecedesIsStrict(o, s[q], s[p]);
      } else if p < q {
        assert Precedes(o, s[p], s[q]);
      }
    }
  }
}
