/** The guarded blocks of the cross-loop lock as functions of the lock's own state.

The state is generic in the identity of a waiter, so that the same functions specify
both the object-level lock (waiters are heap objects) and the interleaving model
(waiters are acquire calls). */
module LockCore {
  import opened Options

  datatype WaiterState = Waiting | Granted | Acquired | Cancelled

  datatype Core<W(==)> = Core(locked: bool, queue: seq<W>, state: map<W, WaiterState>)

  predicate Known<W(==)>(c: Core<W>) {
    forall w :: w in c.queue ==> w in c.state
  }

  predicate NoDup<W(==)>(s: seq<W>) {
    forall i, j :: 0 <= i < j < |s| ==> s[i] != s[j]
  }

  /** Drops the first occurrence, as `deque.remove` does; absent values are ignored. */
  function RemoveFirst<W(==)>(s: seq<W>, w: W): (r: seq<W>)
    ensures forall x :: x in r ==> x in s
  {
    if s == [] then [] else if s[0] == w then s[1..] else [s[0]] + RemoveFirst(s[1..], w)
  }

  lemma {:induction false} RemoveFirstAbsent<W>(s: seq<W>, w: W)
    requires w !in s
    ensures RemoveFirst(s, w) == s
  {
    if s != [] { RemoveFirstAbsent(s[1..], w); }
  }

  /** On a duplicate-free queue, removal takes out exactly the one position of `w`. */
  lemma {:induction false} RemoveFirstAt<W>(s: seq<W>, w: W, k: nat)
    requires k < |s| && s[k] == w && w !in s[..k]
    ensures RemoveFirst(s, w) == s[..k] + s[k + 1..]
  {
    if k > 0 {
      assert s[1..][..k - 1] == s[..k][1..];
      RemoveFirstAt(s[1..], w, k - 1);
      assert s[..k] == [s[0]] + s[1..][..k - 1];
    }
  }

  /** `_next_waiter_locked`: grant the oldest live waiter, or unlock. */
  function NextWaiter<W(==)>(c: Core<W>): (r: (Core<W>, Option<W>))
    requires Known(c)
    ensures Known(r.0) && r.0.state.Keys == c.state.Keys
    ensures r.1.None? ==> !r.0.locked && r.0.queue == [] && r.0.state == c.state
    ensures r.1.Some? ==> r.1.value in c.queue && r.0.locked == c.locked && |r.0.queue| < |c.queue|
    ensures r.1.Some? ==> r.0.state == c.state[r.1.value := Granted]
    decreases |c.queue|
  {
    if c.queue == [] then
      (c.(locked := false), None)
    else
      var w := c.queue[0];
      var rest := c.(queue := c.queue[1..]);
      if c.state[w] == Waiting then
        (rest.(state := c.state[w := Granted]), Some(w))
      else
        NextWaiter(rest)
  }

  lemma NextSkips<W>(c: Core<W>)
    requires Known(c) && c.queue != [] && c.queue[0] in c.state && c.state[c.queue[0]] != Waiting
    ensures Known(c.(queue := c.queue[1..]))
    ensures NextWaiter(c) == NextWaiter(c.(queue := c.queue[1..]))
  {
  }

  lemma NextHits<W>(c: Core<W>)
    requires Known(c) && c.queue != [] && c.queue[0] in c.state && c.state[c.queue[0]] == Waiting
    ensures NextWaiter(c) == (c.(queue := c.queue[1..], state := c.state[c.queue[0] := Granted]), Some(c.queue[0]))
  {
  }

  lemma NextRunsOut<W>(c: Core<W>)
    requires Known(c) && c.queue == []
    ensures NextWaiter(c) == (c.(locked := false), None)
  {
  }

  /** The guarded block of `acquire`: take a free lock at once, otherwise queue up. */
  function Enter<W(==)>(c: Core<W>, w: W): (r: Core<W>)
    ensures r.locked
  {
    if !c.locked then c.(locked := true)
    else c.(queue := c.queue + [w], state := c.state[w := Waiting])
  }

  /** A grant that ends without being acquired hands the lock on. */
  function PassOn<W(==)>(c: Core<W>, w: W): (r: (Core<W>, Option<W>))
    requires Known(c) && w in c.state
    ensures Known(r.0) && r.0.state.Keys == c.state.Keys
  {
    NextWaiter(c.(state := c.state[w := Cancelled]))
  }

  /** `_cancel_waiter`. */
  function CancelWaiter<W(==)>(c: Core<W>, w: W): (r: (Core<W>, Option<W>))
    requires Known(c) && w in c.state
    ensures Known(r.0) && r.0.state.Keys == c.state.Keys
  {
    if c.state[w] == Waiting then
      (c.(state := c.state[w := Cancelled], queue := RemoveFirst(c.queue, w)), None)
    else if c.state[w] != Granted then (c, None)
    else PassOn(c, w)
  }

  /** `_abandon_grant`: the waiter's loop refused the delivery callback. */
  function AbandonGrant<W(==)>(c: Core<W>, w: W): (r: (Core<W>, Option<W>))
    requires Known(c) && w in c.state
    ensures Known(r.0) && r.0.state.Keys == c.state.Keys
    ensures r.1.Some? ==> |r.0.queue| < |c.queue|
  {
    if c.state[w] != Granted then (c, None) else PassOn(c, w)
  }

  /** `_dispatch` run without interference: offer the grant to loops until one accepts it. */
  function DispatchAll<W(==)>(c: Core<W>, w: Option<W>, closed: set<W>): (r: (Core<W>, Option<W>))
    requires Known(c) && (w.Some? ==> w.value in c.state)
    ensures Known(r.0) && r.0.state.Keys == c.state.Keys
    decreases |c.queue|, w.Some?
  {
    if w.None? || w.value !in closed then (c, w)
    else
      var (c', w') := AbandonGrant(c, w.value);
      if w'.None? then (c', None) else DispatchAll(c', w', closed)
  }

  /** Position of the first waiter in line whose loop is open, or the length of the line. */
  function FirstOpen<W(==)>(line: seq<W>, closed: set<W>): (k: nat)
    ensures k <= |line| && (k < |line| ==> line[k] !in closed)
    ensures forall i :: 0 <= i < k ==> line[i] in closed
  {
    if line == [] || line[0] !in closed then 0 else 1 + FirstOpen(line[1..], closed)
  }

  /** The line up to `k` was cancelled, position `k` holds the grant, the rest kept their places. */
  ghost predicate ServedInOrder<W>(c: Core<W>, line: seq<W>, k: nat, r: (Core<W>, Option<W>))
    requires k <= |line|
  {
    && r.0.state.Keys == c.state.Keys
    && (forall x :: x in line[..k] ==> x in r.0.state && r.0.state[x] == Cancelled)
    && (forall x :: x in r.0.state && x !in line[..k] && (k == |line| || x != line[k]) ==> r.0.state[x] == c.state[x])
    && (if k == |line| then r.1 == None && !r.0.locked && r.0.queue == []
        else r.1 == Some(line[k]) && r.0.locked && r.0.queue == line[k + 1..] && r.1.value in r.0.state && r.0.state[line[k]] == Granted)
  }

  ghost predicate InLine<W>(c: Core<W>, w: W) {
    && c.locked && w in c.state && c.state[w] == Granted && w !in c.queue && NoDup(c.queue)
    && forall x :: x in c.queue ==> x in c.state && c.state[x] == Waiting
  }

  /** Dispatching serves the line in order: everyone before the first open loop is
      cancelled, that waiter gets the grant, and the rest keep their places. */
  lemma {:induction false} DispatchFindsFirstOpen<W>(c: Core<W>, w: W, closed: set<W>)
    requires InLine(c, w)
    ensures ServedInOrder(c, [w] + c.queue, FirstOpen([w] + c.queue, closed), DispatchAll(c, Some(w), closed))
    decreases |c.queue|
  {
    if w in closed && c.queue != [] {
      NextInLine(c, w);
      var c' := AbandonGrant(c, w).0;
      DispatchFindsFirstOpen(c', c.queue[0], closed);
      assert [c.queue[0]] + c'.queue == c.queue;
      ServeNext(c, c', w, closed);
    } else if w in closed {
      ServeNobody(c, w, closed);
    } else {
      ServeHead(c, w, closed);
    }
  }

  lemma ServeNext<W>(c: Core<W>, c': Core<W>, w: W, closed: set<W>)
    requires InLine(c, w) && w in closed && c.queue != [] && Known(c')
    requires c' == Core(true, c.queue[1..], c.state[w := Cancelled][c.queue[0] := Granted])
    requires Known(c) && AbandonGrant(c, w) == (c', Some(c.queue[0]))
    requires ServedInOrder(c', c.queue, FirstOpen(c.queue, closed), DispatchAll(c', Some(c.queue[0]), closed))
    ensures ServedInOrder(c, [w] + c.queue, FirstOpen([w] + c.queue, closed), DispatchAll(c, Some(w), closed))
  {
    hide *;
    DispatchSkips(c, w, closed);
    FirstOpenSkips(w, c.queue, closed);
    ServeOneMore(c, c', w, c.queue[0], FirstOpen(c.queue, closed), DispatchAll(c', Some(c.queue[0]), closed));
  }

  lemma FirstOpenSkips<W>(w: W, line: seq<W>, closed: set<W>)
    requires w in closed
    ensures FirstOpen([w] + line, closed) == 1 + FirstOpen(line, closed)
  {
    assert ([w] + line)[1..] == line;
  }

  lemma ServeHead<W>(c: Core<W>, w: W, closed: set<W>)
    requires InLine(c, w) && w !in closed
    ensures ServedInOrder(c, [w] + c.queue, FirstOpen([w] + c.queue, closed), DispatchAll(c, Some(w), closed))
  {
    var line := [w] + c.queue;
    assert line[..0] == [] && line[1..] == c.queue && FirstOpen(line, closed) == 0;
  }

  lemma ServeNobody<W>(c: Core<W>, w: W, closed: set<W>)
    requires InLine(c, w) && w in closed && c.queue == []
    ensures ServedInOrder(c, [w] + c.queue, FirstOpen([w] + c.queue, closed), DispatchAll(c, Some(w), closed))
  {
    assert [w] + c.queue == [w] && [w][..1] == [w] && FirstOpen([w], closed) == 1;
    DispatchSkips(c, w, closed);
  }

  lemma NextInLine<W>(c: Core<W>, w: W)
    requires InLine(c, w) && c.queue != []
    ensures var g := c.queue[0];
            var c' := Core(true, c.queue[1..], c.state[w := Cancelled][g := Granted]);
            InLine(c', g) && AbandonGrant(c, w) == (c', Some(g))
  {
    assert c.queue == [c.queue[0]] + c.queue[1..];
    assert c.queue[0] in c.queue;
  }

  /** A refused callback continues the dispatch with whoever is granted next. */
  lemma DispatchSkips<W>(c: Core<W>, w: W, closed: set<W>)
    requires Known(c) && w in c.state && w in closed
    ensures var (c', w') := AbandonGrant(c, w);
            (w'.Some? ==> w'.value in c'.state) && DispatchAll(c, Some(w), closed) == DispatchAll(c', w', closed)
  {
  }

  lemma ServeOneMore<W>(c: Core<W>, c': Core<W>, w: W, g: W, k: nat, r: (Core<W>, Option<W>))
    requires InLine(c, w) && c.queue != [] && g == c.queue[0] && k <= |c.queue|
    requires c' == Core(true, c.queue[1..], c.state[w := Cancelled][g := Granted])
    requires ServedInOrder(c', c.queue, k, r)
    ensures ServedInOrder(c, [w] + c.queue, k + 1, r)
  {
    var line := [w] + c.queue;
    assert line[..k + 1] == [w] + c.queue[..k];
    assert g in c.queue && w != g;
    if k > 0 { assert c.queue[..k][0] == g; }
    assert r.0.state[w] == Cancelled;
    assert k < |c.queue| ==> line[k + 2..] == c.queue[k + 1..];
  }
}
