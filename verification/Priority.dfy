/** The order in which a template takes pending transactions: round by round, and within a round as the mempool lists
    them. A sender's transactions are taken in nonce order; one that is listed before its predecessor has to wait
    for the round after it. */
module Priority {
  import opened Types
  import opened Chain
  import opened Mempool

  /** Index of the first t. */
  function PlaceOf(s: seq<Tx>, t: Tx): (k: nat)
    ensures t in s ==> k < |s| && s[k] == t
  {
    if s == [] then 0 else if s[0] == t then 0 else PlaceOf(s[1..], t) + 1
  }

  lemma {:induction false} PlaceAt(s: seq<Tx>, i: nat)
    requires i < |s| && Distinct(s)
    ensures PlaceOf(s, s[i]) == i
  {
    assert s[i] in s;
  }

  /** The round in which the k-th transaction of a queue is taken. */
  function RoundAt(listing: seq<Tx>, q: seq<Tx>, k: nat): nat
    requires k < |q|
  {
    if k == 0 then 0
    else RoundAt(listing, q, k - 1) + if PlaceOf(listing, q[k]) < PlaceOf(listing, q[k - 1]) then 1 else 0
  }

  ghost function Round(listing: seq<Tx>, pool: set<Tx>, t: Tx): nat {
    var q := Queue(pool, t.sender);
    if t in q then RoundAt(listing, q, PlaceOf(q, t)) else 0
  }

  ghost predicate Precedes(listing: seq<Tx>, pool: set<Tx>, t: Tx, u: Tx) {
    Round(listing, pool, t) < Round(listing, pool, u)
    || (Round(listing, pool, t) == Round(listing, pool, u) && PlaceOf(listing, t) < PlaceOf(listing, u))
  }

  ghost predicate InOrder(listing: seq<Tx>, pool: set<Tx>, txs: seq<Tx>) {
    forall i, j :: 0 <= i < j < |txs| ==> Precedes(listing, pool, txs[i], txs[j])
  }

  /** Taken in this order, and nothing is left out that comes before something taken. */
  ghost predicate Prioritized(listing: seq<Tx>, pool: set<Tx>, txs: seq<Tx>) {
    && InOrder(listing, pool, txs)
    && forall t, u :: t in listing && u in txs && Precedes(listing, pool, t, u) ==> t in txs
  }

  // ---------------------------------------------------------------- the state of a pass

  /** In the given round, with `rest` still to look at: selected is what earlier rounds take and what this round takes
      of the part already seen. */
  ghost predicate Progressed(listing: seq<Tx>, pool: set<Tx>, round: nat, selected: seq<Tx>, rest: seq<Tx>) {
    && (forall t :: t in listing ==>
          (t in selected <==> Round(listing, pool, t) < round || (Round(listing, pool, t) == round && t !in rest)))
    && (forall t, u :: t in selected && u in rest && Round(listing, pool, t) == round ==>
          PlaceOf(listing, t) < PlaceOf(listing, u))
    && (forall t :: t in selected ==> t in listing)
    && InOrder(listing, pool, selected)
  }

  /** Listed in this order. */
  ghost predicate Listed(listing: seq<Tx>, txs: seq<Tx>) {
    (forall t :: t in txs ==> t in listing)
    && forall i, j :: 0 <= i < j < |txs| ==> PlaceOf(listing, txs[i]) < PlaceOf(listing, txs[j])
  }

  lemma ListedAll(listing: seq<Tx>)
    requires Distinct(listing)
    ensures Listed(listing, listing)
  {
    forall i, j | 0 <= i < j < |listing|
      ensures PlaceOf(listing, listing[i]) < PlaceOf(listing, listing[j])
    {
      PlaceAt(listing, i);
      PlaceAt(listing, j);
    }
  }

  lemma ProgressStart(listing: seq<Tx>, pool: set<Tx>)
    ensures Progressed(listing, pool, 0, [], listing)
  {
    hide Round, PlaceOf;
  }

  /** The transaction looked at belongs to this round and is taken. */
  lemma ProgressTake(listing: seq<Tx>, pool: set<Tx>, round: nat, selected: seq<Tx>, rest: seq<Tx>)
    requires Progressed(listing, pool, round, selected, rest) && rest != [] && Listed(listing, rest)
    requires Round(listing, pool, rest[0]) == round
    ensures Progressed(listing, pool, round, selected + [rest[0]], rest[1..])
  {
    hide Round, PlaceOf;
    var tx, more := rest[0], rest[1..];
    assert forall t :: t in rest <==> t == tx || t in more;
    assert forall i :: 0 <= i < |more| ==> more[i] == rest[i + 1];
    assert forall t :: t in selected + [tx] <==> t in selected || t == tx;
    assert forall u :: u in more ==> PlaceOf(listing, tx) < PlaceOf(listing, u);
    assert tx in listing && tx in rest && tx !in more;
    forall t | t in selected
      ensures Precedes(listing, pool, t, tx)
    {}
  }

  /** It belongs to a later round and is deferred. */
  lemma ProgressSkip(listing: seq<Tx>, pool: set<Tx>, round: nat, selected: seq<Tx>, rest: seq<Tx>)
    requires Progressed(listing, pool, round, selected, rest) && rest != [] && Round(listing, pool, rest[0]) != round
    ensures Progressed(listing, pool, round, selected, rest[1..])
  {
    hide Round, PlaceOf, InOrder;
    var tx, more := rest[0], rest[1..];
    assert forall t :: t in rest <==> t == tx || t in more;
  }

  /** The next round starts with whatever is not selected yet. */
  lemma ProgressRound(listing: seq<Tx>, pool: set<Tx>, round: nat, selected: seq<Tx>, rest: seq<Tx>)
    requires Progressed(listing, pool, round, selected, [])
    requires forall t :: t in rest <==> t in listing && t !in selected
    ensures Progressed(listing, pool, round + 1, selected, rest)
  {
    hide Round, PlaceOf, InOrder;
  }

  lemma ProgressPriority(listing: seq<Tx>, pool: set<Tx>, round: nat, selected: seq<Tx>, rest: seq<Tx>)
    requires Progressed(listing, pool, round, selected, rest)
    ensures Prioritized(listing, pool, selected)
  {
    hide Round, PlaceOf, InOrder;
  }

  lemma RoundIs(listing: seq<Tx>, pool: set<Tx>, q: seq<Tx>, k: nat)
    requires k < |q| && q == Queue(pool, q[k].sender) && Distinct(q)
    ensures Round(listing, pool, q[k]) == RoundAt(listing, q, k)
  {
    hide Queue, PlaceOf, RoundAt;
    PlaceAt(q, k);
    assert q[k] in q;
  }

  /** Of the part still to look at, the first belongs to this round exactly when all its predecessors in its sender's
      queue, and only they, are selected already. */
  lemma TurnComes(listing: seq<Tx>, pool: set<Tx>, round: nat, selected: seq<Tx>, rest: seq<Tx>, q: seq<Tx>, k: nat, m: nat)
    requires Progressed(listing, pool, round, selected, rest) && rest != [] && Listed(listing, rest)
    requires k < |q| && q[k] == rest[0] && m <= k && Distinct(q) && (forall t :: t in q ==> t in listing)
    requires forall i :: 0 <= i < |q| ==> (q[i] in selected <==> i < m)
    requires forall i :: 0 <= i < |q| ==> Round(listing, pool, q[i]) == RoundAt(listing, q, i)
    ensures Round(listing, pool, rest[0]) == round <==> k == m
  {
    hide Round, PlaceOf, InOrder;
    assert q[k] in listing && q[k] in rest;
    if k > 0 {
      assert q[k - 1] in listing && q[k - 1] != q[k];
      if q[k - 1] in rest {
        var j :| 0 <= j < |rest| && rest[j] == q[k - 1];
        assert j > 0;
      }
    }
  }

  // ---------------------------------------------------------------- what the order means

  /** The order leaves no choice: the selection follows from its size. */
  lemma PriorityDetermines(listing: seq<Tx>, pool: set<Tx>, a: seq<Tx>, b: seq<Tx>, n: nat)
    requires Prioritized(listing, pool, a) && Prioritized(listing, pool, b) && n <= |a| && n <= |b|
    requires (forall t :: t in a ==> t in listing) && (forall t :: t in b ==> t in listing)
    ensures a[..n] == b[..n]
  {
    if n > 0 {
      var i := n - 1;
      PriorityDetermines(listing, pool, a, b, i);
      if a[i] != b[i] {
        NotBefore(listing, pool, a, b, i);
        NotBefore(listing, pool, b, a, i);
        PlacesDiffer(listing, a[i], b[i]);
        assert false;
      }
      assert a[..n] == a[..i] + [a[i]] && b[..n] == b[..i] + [b[i]];
    }
  }

  lemma PlacesDiffer(listing: seq<Tx>, t: Tx, u: Tx)
    requires t in listing && u in listing && t != u
    ensures PlaceOf(listing, t) != PlaceOf(listing, u)
  {}

  lemma NotBefore(listing: seq<Tx>, pool: set<Tx>, a: seq<Tx>, b: seq<Tx>, i: nat)
    requires Prioritized(listing, pool, a) && Prioritized(listing, pool, b) && i < |a| && i < |b| && a[..i] == b[..i]
    requires a[i] in listing
    ensures !Precedes(listing, pool, a[i], b[i])
  {
    hide Round, PlaceOf;
    if Precedes(listing, pool, a[i], b[i]) {
      assert a[i] in b;
      var j :| 0 <= j < |b| && b[j] == a[i];
      assert false;
    }
  }

  /** The front of a queue belongs to the first round. */
  lemma FrontRound(listing: seq<Tx>, pool: set<Tx>, t: Tx)
    requires Queue(pool, t.sender) != [] && Queue(pool, t.sender)[0] == t
    ensures Round(listing, pool, t) == 0
  {
    hide Queue;
  }

  /** A sender's first pending transaction is not passed over for one listed after it. */
  lemma FrontFirst(listing: seq<Tx>, pool: set<Tx>, txs: seq<Tx>, t: Tx, u: Tx)
    requires Distinct(listing) && Prioritized(listing, pool, txs) && t in listing && u in txs
    requires Queue(pool, t.sender) != [] && Queue(pool, t.sender)[0] == t
    requires u in listing && PlaceOf(listing, t) < PlaceOf(listing, u)
    ensures t in txs
  {
    hide Round, PlaceOf, Queue;
    FrontRound(listing, pool, t);
    assert Precedes(listing, pool, t, u);
  }

  /** When no sender has more than one transaction pending, the listing is followed from the start. */
  lemma SinglesInOrder(listing: seq<Tx>, pool: set<Tx>, txs: seq<Tx>)
    requires Distinct(listing) && Prioritized(listing, pool, txs) && (forall t :: t in txs ==> t in listing)
    requires |txs| <= |listing| && forall t :: t in listing ==> Queue(pool, t.sender) == [t]
    ensures txs == listing[..|txs|]
  {
    forall i, j | 0 <= i < j < |listing|
      ensures Precedes(listing, pool, listing[i], listing[j])
    {
      FrontRound(listing, pool, listing[i]);
      FrontRound(listing, pool, listing[j]);
      PlaceAt(listing, i);
      PlaceAt(listing, j);
    }
    hide Precedes;
    PriorityDetermines(listing, pool, txs, listing, |txs|);
  }
}
