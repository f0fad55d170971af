/** The ids of a connection: every registered request is pending, answered or collected, never two of them. */
module MultiplexerBook {
  import opened Stream
  import opened Results
  import opened Requests
  import opened Dispatch
  import opened Multiplexer

  /**
    Ids ascend in the queue; each issued id is in exactly one of pending, replies and collected; what
    is pending is the request issued under that id, and what is filed answers it.
   */
  ghost predicate BookInv(b: Book, issued: seq<Request>, collected: set<nat>) {
    && Ascending(b.pending)
    && Partition(Ids(b.pending), b.replies.Keys, collected, |issued|)
    && Typed(b.pending, issued)
    && TypedReplies(b.replies, issued)
  }

  ghost predicate TypedReplies(replies: map<nat, Reply>, issued: seq<Request>) {
    forall id :: id in replies ==> id < |issued| && Answers(issued[id], replies[id])
  }

  ghost predicate Partition(p: set<nat>, r: set<nat>, c: set<nat>, n: nat) {
    p !! r && p !! c && r !! c && p + r + c == Interval(0, n)
  }

  ghost predicate TypedEntry(e: Entry, issued: seq<Request>) {
    e.id < |issued| && Unanswered(issued[e.id], e.request)
  }

  ghost predicate Typed(todo: seq<Entry>, issued: seq<Request>) {
    forall k :: 0 <= k < |todo| ==> TypedEntry(todo[k], issued)
  }

  lemma {:induction false} ScanKeepsTypes(todo: seq<Entry>, replies: map<nat, Reply>, issued: seq<Request>, msg: Frame)
    requires Typed(todo, issued)
    requires forall i :: 0 <= i < |todo| ==> !RefusedBy(todo[i], msg)
    requires TypedReplies(replies, issued)
    ensures Typed(Survivors(todo, msg), issued)
    ensures TypedReplies(Filed(replies, todo, msg), issued)
    decreases |todo|
  {
    hide Feed, Unanswered, Answers;
    if todo != [] {
      var n := |todo| - 1;
      assert todo[n] in todo;
      assert TypedEntry(todo[n], issued) && !RefusedBy(todo[n], msg);
      FeedKeepsIdentity(issued[todo[n].id], todo[n].request, msg);
      ScanKeepsTypes(todo[..n], replies, issued, msg);
    }
  }

  lemma IdsOfSplit(xs: seq<Entry>, ys: seq<Entry>)
    ensures Ids(xs + ys) == Ids(xs) + Ids(ys)
  {
    var all := xs + ys;
    assert forall i :: 0 <= i < |xs| ==> all[i] == xs[i];
    assert forall i :: 0 <= i < |ys| ==> all[|xs| + i] == ys[i];
    forall id | id in Ids(ys) ensures id in Ids(all) {
      var i :| 0 <= i < |ys| && ys[i].id == id;
      assert all[|xs| + i].id == id;
    }
    forall id | id in Ids(xs) ensures id in Ids(all) {
      var i :| 0 <= i < |xs| && xs[i].id == id;
      assert all[i].id == id;
    }
  }

  ghost predicate Below(p: set<nat>, q: set<nat>) {
    forall x, y :: x in p && y in q ==> x < y
  }

  lemma AscendingJoin(xs: seq<Entry>, ys: seq<Entry>)
    requires Ascending(xs) && Ascending(ys) && Below(Ids(xs), Ids(ys))
    ensures Ascending(xs + ys)
  {
    var all := xs + ys;
    forall i, j | 0 <= i < j < |all| ensures all[i].id < all[j].id {
      if i < |xs| <= j {
        assert all[i].id in Ids(xs);
        assert all[j] == ys[j - |xs|] && all[j].id in Ids(ys);
      }
    }
  }

  lemma AscendingSplit(todo: seq<Entry>, k: nat)
    requires Ascending(todo) && k <= |todo|
    ensures Ascending(todo[..k]) && Ascending(todo[k..]) && Below(Ids(todo[..k]), Ids(todo[k..]))
    ensures Ids(todo) == Ids(todo[..k]) + Ids(todo[k..])
  {
    assert todo == todo[..k] + todo[k..];
    IdsOfSplit(todo[..k], todo[k..]);
    forall x, y | x in Ids(todo[..k]) && y in Ids(todo[k..]) ensures x < y {
      var i :| 0 <= i < k && todo[..k][i].id == x;
      var j :| 0 <= j < |todo| - k && todo[k..][j].id == y;
      assert todo[i].id == x && todo[k + j].id == y;
    }
  }

  /** A frame moves ids from pending to replies, never to another place, and invents none. */
  lemma ScanKeepsBook(b: Book, msg: Frame, issued: seq<Request>, collected: set<nat>)
    requires BookInv(b, issued, collected)
    ensures BookInv(Scan(b, msg), issued, collected)
    ensures Ids(Scan(b, msg).pending) <= Ids(b.pending)
  {
    hide Feed, Unanswered, Answers, Survivors, Filed, Ascending, Ids;
    var k := FirstRefusal(b.pending, msg);
    var seen, rest := b.pending[..k], b.pending[k..];
    AscendingSplit(b.pending, k);
    assert forall i :: 0 <= i < k ==> seen[i] == b.pending[i];
    NoRequestLost(b.replies, seen, msg);
    ScanKeepsTypes(seen, b.replies, issued, msg);
    var kept := Survivors(seen, msg);
    AscendingJoin(kept, rest);
    IdsOfSplit(kept, rest);
    assert Ids(seen) !! Ids(rest);
    forall i | 0 <= i < |kept + rest| ensures TypedEntry((kept + rest)[i], issued) {
      if i >= |kept| {
        assert (kept + rest)[i] == b.pending[k + (i - |kept|)];
      }
    }
  }

  lemma DeliverKeepsBook(b: Book, msg: Frame, locked: bool, issued: seq<Request>, collected: set<nat>)
    requires BookInv(b, issued, collected)
    ensures BookInv(Deliver(b, msg, locked), issued, collected)
    ensures Ids(Deliver(b, msg, locked).pending) <= Ids(b.pending)
    ensures b.fatal.Some? ==> Deliver(b, msg, locked).fatal == b.fatal
  {
    hide BookInv, Scan, Ids;
    ScanKeepsBook(b, msg, issued, collected);
    BookOnlyNeedsQueue(b, issued, collected);
    ScanKeepsFatal(b, msg);
  }

  lemma ScanKeepsFatal(b: Book, msg: Frame)
    ensures b.fatal.Some? ==> Scan(b, msg).fatal == b.fatal
  {}

  lemma BookOnlyNeedsQueue(b: Book, issued: seq<Request>, collected: set<nat>)
    requires BookInv(b, issued, collected)
    ensures forall f :: BookInv(b.(fatal := f), issued, collected)
  {}

  /** A request that has not been fed anything yet. */
  ghost predicate Unfed(r: Request) {
    && Unanswered(r, r)
    && (r.Execute? ==> !r.exec.echoed && r.exec.stdout == [] && r.exec.streamed == [])
    && (r.GetFile? ==> r.getFile.data == [])
    && (r.Ping? ==> !r.ping.echoed)
  }

  lemma TypedGrows(todo: seq<Entry>, issued: seq<Request>, reqs: seq<Request>)
    requires Typed(todo, issued) && forall i :: 0 <= i < |reqs| ==> Unfed(reqs[i])
    ensures Typed(todo + NewEntries(|issued|, reqs), issued + reqs)
  {
    hide Unanswered;
    var es := NewEntries(|issued|, reqs);
    forall k | 0 <= k < |todo + es| ensures TypedEntry((todo + es)[k], issued + reqs) {
      if k < |todo| {
        assert TypedEntry(todo[k], issued);
      } else {
        assert (todo + es)[k] == Entry(|issued| + (k - |todo|), reqs[k - |todo|]);
      }
    }
  }

  lemma RepliesStayTyped(replies: map<nat, Reply>, issued: seq<Request>, more: seq<Request>)
    requires TypedReplies(replies, issued)
    ensures TypedReplies(replies, issued + more)
  {}

  lemma RegisterKeepsBook(b: Book, issued: seq<Request>, collected: set<nat>, reqs: seq<Request>)
    requires BookInv(b, issued, collected) && forall i :: 0 <= i < |reqs| ==> Unfed(reqs[i])
    ensures BookInv(b.(pending := b.pending + NewEntries(|issued|, reqs)), issued + reqs, collected)
    ensures Ids(b.pending + NewEntries(|issued|, reqs)) == Ids(b.pending) + Interval(|issued|, |issued| + |reqs|)
  {
    hide Ids, Ascending, Partition, Below, Typed, TypedReplies, NewEntries, Interval;
    var n, m := |issued|, |issued| + |reqs|;
    assert |issued + reqs| == m;
    var es := NewEntries(n, reqs);
    NewEntriesIds(n, reqs);
    IdsOfSplit(b.pending, es);
    OldIdsBelow(Ids(b.pending), b.replies.Keys, collected, n, m);
    assert Ids(es) == Interval(n, m);
    AscendingJoin(b.pending, es);
    PartitionGrows(Ids(b.pending), Ids(b.pending + es), b.replies.Keys, collected, n, m);
    TypedGrows(b.pending, issued, reqs);
    RepliesStayTyped(b.replies, issued, reqs);
  }

  lemma PartitionGrows(p: set<nat>, grown: set<nat>, r: set<nat>, c: set<nat>, n: nat, more: nat)
    requires Partition(p, r, c, n) && n <= more && grown == p + Interval(n, more)
    ensures Partition(grown, r, c, more)
  {
    assert Interval(0, more) == Interval(0, n) + Interval(n, more);
    assert forall id :: id in p || id in r || id in c ==> id in Interval(0, n);
  }

  lemma OldIdsBelow(p: set<nat>, r: set<nat>, c: set<nat>, n: nat, more: nat)
    requires Partition(p, r, c, n)
    ensures Below(p, Interval(n, more))
  {
    assert forall id :: id in p ==> id in Interval(0, n);
  }

  lemma NewEntriesIds(first: nat, reqs: seq<Request>)
    ensures Ascending(NewEntries(first, reqs))
    ensures Ids(NewEntries(first, reqs)) == Interval(first, first + |reqs|)
  {
    var es := NewEntries(first, reqs);
    forall id | first <= id < first + |reqs| ensures id in Ids(es) {
      assert es[id - first].id == id;
    }
  }

  /** Collecting moves a batch of answered ids out of the replies. */
  lemma CollectKeepsBook(b: Book, issued: seq<Request>, collected: set<nat>, ids: set<nat>)
    requires BookInv(b, issued, collected) && ids <= b.replies.Keys
    ensures BookInv(b.(replies := b.replies - ids), issued, collected + ids)
  {
    hide Unanswered, Answers, Ids, Ascending;
    assert (b.replies - ids).Keys == b.replies.Keys - ids;
  }
}
