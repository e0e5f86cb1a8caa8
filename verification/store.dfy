/** The conversation store behind node_server/index.js: the `Message`
    collection (lines 26-32) as an append-only sequence with a logical clock
    standing in for `Date.now`, and the queries the server runs on it. */
module MessageStore {
  import opened Seqs

  datatype Sender = User | Bot

  /** One stored chat message. */
  datatype Message = Message(text: string, sender: Sender, user: string, timestamp: nat)

  /** The collection in insertion order, and the next timestamp to hand out. */
  datatype Store = Store(messages: seq<Message>, clock: nat)

  /** Timestamps strictly increase along a sequence of messages. */
  predicate Chronological(msgs: seq<Message>) {
    forall i, j :: 0 <= i < j < |msgs| ==> msgs[i].timestamp < msgs[j].timestamp
  }

  /** Insertion order is timestamp order, and the clock is ahead of every
      stored timestamp. */
  predicate Valid(st: Store) {
    && Chronological(st.messages)
    && forall i :: 0 <= i < |st.messages| ==> st.messages[i].timestamp < st.clock
  }

  /** The store of a fresh database: no messages, clock at zero. */
  const Empty: Store := Store([], 0)

  /** A fresh store is valid, so every handler's precondition holds from the
      start and, since each preserves validity, after any sequence of calls. */
  lemma EmptyValid()
    ensures Valid(Empty)
  {
  }

  // ---------------------------------------------------------------------------
  // find({ user })

  /** The messages of `user`, in the order they are stored. */
  function OfUser(msgs: seq<Message>, user: string): (r: seq<Message>)
    ensures |r| <= |msgs|
    ensures forall m :: m in r <==> m in msgs && m.user == user
    ensures Chronological(msgs) ==> Chronological(r)
  {
    if |msgs| == 0 then []
    else
      var rest := OfUser(msgs[1..], user);
      assert forall m :: m in msgs <==> m == msgs[0] || m in msgs[1..];
      assert Chronological(msgs) ==> forall m :: m in rest ==> msgs[0].timestamp < m.timestamp;
      if msgs[0].user == user then [msgs[0]] + rest else rest
  }

  lemma {:induction false} OfUserAppend(a: seq<Message>, b: seq<Message>, user: string)
    ensures OfUser(a + b, user) == OfUser(a, user) + OfUser(b, user)
    decreases |a|
  {
    if |a| > 0 {
      assert (a + b)[1..] == a[1..] + b;
      OfUserAppend(a[1..], b, user);
    } else {
      assert a + b == b;
    }
  }

  /** `Message.find({ user }).sort({ timestamp: 1 })`: the messages of `user`,
      oldest first. */
  function History(st: Store, user: string): (r: seq<Message>)
    requires Valid(st)
    ensures Chronological(r)
    ensures forall m :: m in r <==> m in st.messages && m.user == user
  {
    OfUser(st.messages, user)
  }

  lemma HeadIsMember(a: seq<Message>)
    ensures |a| > 0 ==> a[0] in a
  {
  }

  /** A chronological sequence is determined by which messages it holds, so
      `History` is the only answer the sorted query can give. */
  lemma {:induction false} ChronologicalUnique(a: seq<Message>, b: seq<Message>)
    requires Chronological(a) && Chronological(b)
    requires forall m :: m in a <==> m in b
    ensures a == b
    decreases |a|
  {
    if |a| == 0 || |b| == 0 {
      HeadIsMember(a);
      HeadIsMember(b);
    } else {
      // the oldest message of each is the oldest message of the other
      assert a[0] in b;
      assert b[0] in a;
      var i :| 0 <= i < |b| && b[i] == a[0];
      var j :| 0 <= j < |a| && a[j] == b[0];
      assert a[0].timestamp <= a[j].timestamp;
      assert b[0].timestamp <= b[i].timestamp;
      assert a[0] == b[0];
      forall m ensures m in a[1..] <==> m in b[1..] {
        if m in a[1..] {
          var p :| 1 <= p < |a| && a[p] == m;
          assert a[0].timestamp < m.timestamp;
          assert m in a;
          var q :| 0 <= q < |b| && b[q] == m;
          assert q != 0 && b[1..][q - 1] == m;
        }
        if m in b[1..] {
          var p :| 1 <= p < |b| && b[p] == m;
          assert b[0].timestamp < m.timestamp;
          assert m in b;
          var q :| 0 <= q < |a| && a[q] == m;
          assert q != 0 && a[1..][q - 1] == m;
        }
      }
      ChronologicalUnique(a[1..], b[1..]);
      assert a == [a[0]] + a[1..] && b == [b[0]] + b[1..];
    }
  }

  /** `Message.find({ user }).sort({ timestamp: -1 }).limit(n)`, then
      `reverse()`: the `n` newest messages of `user`, oldest first. */
  function Recent(st: Store, user: string, n: nat): (r: seq<Message>)
    requires Valid(st)
  {
    Reverse(Take(Reverse(History(st, user)), n))
  }

  /** The recency window is the tail of the history: the last `n` messages
      of `user`, or all of them when there are fewer. */
  lemma RecentIsTail(st: Store, user: string, n: nat)
    requires Valid(st)
    ensures var h := History(st, user);
      Recent(st, user, n) == h[|h| - (if |h| <= n then |h| else n)..]
  {
    var h := History(st, user);
    var w := if |h| <= n then |h| else n;
    var r := Recent(st, user, n);
    var t := Take(Reverse(h), n);
    assert |t| == w && |r| == w;
    forall i | 0 <= i < w ensures r[i] == h[|h| - w + i] {
      assert r[i] == t[w - 1 - i];
      assert t[w - 1 - i] == Reverse(h)[w - 1 - i];
    }
  }

  /** The recency window holds at most `n` messages, all of `user`, in
      chronological order. */
  lemma RecentWindow(st: Store, user: string, n: nat)
    requires Valid(st)
    ensures |Recent(st, user, n)| <= n
    ensures Chronological(Recent(st, user, n))
    ensures forall m :: m in Recent(st, user, n) ==> m in st.messages && m.user == user
  {
    var h := History(st, user);
    var r := Recent(st, user, n);
    RecentIsTail(st, user, n);
    assert forall m :: m in r ==> m in h;
  }

  /** Every message of `user` left out of the recency window is older than
      every message in it. */
  lemma RecentIsNewest(st: Store, user: string, n: nat, m: Message, k: nat)
    requires Valid(st)
    requires m in History(st, user) && m !in Recent(st, user, n) && k < |Recent(st, user, n)|
    ensures m.timestamp < Recent(st, user, n)[k].timestamp
  {
    var h := History(st, user);
    var w := if |h| <= n then |h| else n;
    RecentIsTail(st, user, n);
    var p :| 0 <= p < |h| && h[p] == m;
    TailIsNewer(h, w, p, k);
  }

  lemma TailIsNewer(h: seq<Message>, w: nat, p: nat, k: nat)
    requires Chronological(h) && w <= |h| && p < |h| && h[p] !in h[|h| - w..] && k < w
    ensures h[p].timestamp < h[|h| - w..][k].timestamp
  {
    assert forall q :: |h| - w <= q < |h| ==> h[|h| - w..][q - (|h| - w)] == h[q];
  }

  // ---------------------------------------------------------------------------
  // insertMany, deleteMany, distinct

  /** Lines 163-166: one chat turn stores the user's input and then the bot's
      reply, both under `user`, after everything already stored. */
  function AppendTurn(st: Store, user: string, input: string, reply: string): (r: Store)
    requires Valid(st)
    ensures Valid(r)
    ensures |r.messages| == |st.messages| + 2 && r.messages[..|st.messages|] == st.messages
    ensures r.messages[|st.messages|] == Message(input, User, user, st.clock)
    ensures r.messages[|st.messages| + 1] == Message(reply, Bot, user, st.clock + 1)
  {
    Store(st.messages + [Message(input, User, user, st.clock), Message(reply, Bot, user, st.clock + 1)],
          st.clock + 2)
  }

  /** After a turn, the history of its user ends with the two new messages
      (input, then reply) and every other user's history is unchanged. */
  lemma AppendTurnHistory(st: Store, user: string, input: string, reply: string, u: string)
    requires Valid(st)
    ensures History(AppendTurn(st, user, input, reply), u) == History(st, u)
      + (if u == user then [Message(input, User, user, st.clock), Message(reply, Bot, user, st.clock + 1)] else [])
  {
    var added := [Message(input, User, user, st.clock), Message(reply, Bot, user, st.clock + 1)];
    OfUserAppend(st.messages, added, u);
    OfUserPair(added, u);
  }

  lemma OfUserPair(added: seq<Message>, u: string)
    requires |added| == 2 && added[0].user == added[1].user
    ensures OfUser(added, u) == if u == added[0].user then added else []
  {
    assert added[1..][1..] == [];
    assert added == [added[0]] + [added[1]];
  }

  /** The messages whose user is not `user`, in stored order. */
  function WithoutUser(msgs: seq<Message>, user: string): (r: seq<Message>)
    ensures forall m :: m in r <==> m in msgs && m.user != user
  {
    if |msgs| == 0 then []
    else
      var rest := WithoutUser(msgs[1..], user);
      assert forall m :: m in msgs <==> m == msgs[0] || m in msgs[1..];
      if msgs[0].user == user then rest else [msgs[0]] + rest
  }

  lemma {:induction false} OfUserWithout(msgs: seq<Message>, x: string, u: string)
    ensures OfUser(WithoutUser(msgs, x), u) == if u == x then [] else OfUser(msgs, u)
    decreases |msgs|
  {
    if |msgs| > 0 {
      OfUserWithout(msgs[1..], x, u);
      var rest := WithoutUser(msgs[1..], x);
      if msgs[0].user != x {
        assert ([msgs[0]] + rest)[1..] == rest;
      }
    }
  }

  /** Lines 185 and 236, `Message.deleteMany({ user })`: every message of
      `user` goes, every other user's history stays as it was. */
  function DeleteUser(st: Store, user: string): (r: Store)
    requires Valid(st)
    ensures Valid(r)
    ensures History(r, user) == []
    ensures forall u :: u != user ==> History(r, u) == History(st, u)
    ensures forall m :: m in r.messages <==> m in st.messages && m.user != user
  {
    var r := Store(WithoutUser(st.messages, user), st.clock);
    forall u ensures OfUser(r.messages, u) == if u == user then [] else OfUser(st.messages, u) {
      OfUserWithout(st.messages, user, u);
    }
    assert Chronological(r.messages) by {
      // a chronological subsequence of the messages: its membership and order
      // are those of the kept messages, which OfUser characterises per user
      WithoutUserChronological(st.messages, user);
    }
    r
  }

  lemma {:induction false} WithoutUserChronological(msgs: seq<Message>, user: string)
    requires Chronological(msgs)
    ensures Chronological(WithoutUser(msgs, user))
    decreases |msgs|
  {
    if |msgs| > 0 {
      WithoutUserChronological(msgs[1..], user);
      var rest := WithoutUser(msgs[1..], user);
      assert forall m :: m in rest ==> m in msgs[1..];
      assert forall m :: m in msgs[1..] ==> msgs[0].timestamp < m.timestamp;
    }
  }

  /** The users that have at least one stored message. */
  function UsersOf(msgs: seq<Message>): set<string> {
    set m | m in msgs :: m.user
  }

  /** A user is listed exactly when their history is not empty. */
  lemma UsersOfHistory(st: Store, user: string)
    requires Valid(st)
    ensures user in UsersOf(st.messages) <==> History(st, user) != []
  {
    if user in UsersOf(st.messages) {
      var m :| m in st.messages && m.user == user;
      assert m in History(st, user);
    }
    if History(st, user) != [] {
      assert History(st, user)[0] in History(st, user);
    }
  }

  /** Lines 219-222, `Message.distinct('user')`: each user with stored
      messages, once. The database promises no order; this lists them in
      order of first appearance. */
  method DistinctUsers(st: Store) returns (users: seq<string>)
    ensures forall u :: u in users <==> u in UsersOf(st.messages)
    ensures forall i, j :: 0 <= i < j < |users| ==> users[i] != users[j]
  {
    users := [];
    var i := 0;
    while i < |st.messages|
      invariant 0 <= i <= |st.messages|
      invariant forall u :: u in users <==> u in UsersOf(st.messages[..i])
      invariant forall a, b :: 0 <= a < b < |users| ==> users[a] != users[b]
    {
      var u := st.messages[i].user;
      assert st.messages[..i + 1] == st.messages[..i] + [st.messages[i]];
      if u !in users {
        users := users + [u];
      }
      i := i + 1;
    }
    assert st.messages[..i] == st.messages;
  }
}
