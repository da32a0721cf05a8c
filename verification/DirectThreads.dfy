/** Which direct messages belong to a thread: the view and the paging procedure select the same rows. */
module DirectThreads {
  import opened Paging

  /** Rows whose id was seen before are dropped. */
  function Unseen(rows: seq<Message>): seq<Message> {
    if rows == [] then []
    else
      var front, last := Unseen(rows[..|rows| - 1]), rows[|rows| - 1];
      if HasId(rows[..|rows| - 1], last.id) then front else front + [last]
  }

  predicate HasId(rows: seq<Message>, id: nat) {
    exists m :: m in rows && m.id == id
  }

  function Partner(me: Identity, m: Message): Identity {
    if m.sender == me then m.recipient else m.sender
  }

  function WithPartner(rows: seq<Message>, me: Identity, partner: Identity): seq<Message> {
    if rows == [] then []
    else
      var front, last := WithPartner(rows[..|rows| - 1], me, partner), rows[|rows| - 1];
      if Partner(me, last) == partner then front + [last] else front
  }

  function SentTo(rows: seq<Message>, partner: Identity): seq<Message> {
    if rows == [] then []
    else
      var front, last := SentTo(rows[..|rows| - 1], partner), rows[|rows| - 1];
      if last.recipient == partner then front + [last] else front
  }

  function SentFrom(rows: seq<Message>, partner: Identity): seq<Message> {
    if rows == [] then []
    else
      var front, last := SentFrom(rows[..|rows| - 1], partner), rows[|rows| - 1];
      if last.sender == partner then front + [last] else front
  }

  /** The view's thread: both index lookups, deduplicated, then grouped by partner. */
  function ViewThread(sent: seq<Message>, received: seq<Message>, me: Identity, partner: Identity): seq<Message> {
    WithPartner(Unseen(sent + received), me, partner)
  }

  /** The procedure's thread: both lookups narrowed to the partner, then deduplicated. */
  function PagedThread(sent: seq<Message>, received: seq<Message>, partner: Identity): seq<Message> {
    Unseen(SentTo(sent, partner) + SentFrom(received, partner))
  }

  /** The two index lookups of one caller over one table. */
  ghost predicate AreLookups(sent: seq<Message>, received: seq<Message>, me: Identity) {
    && (forall m :: m in sent ==> m.sender == me)
    && (forall m :: m in received ==> m.recipient == me)
    && (forall m, n :: m in sent + received && n in sent + received && m.id == n.id ==> m == n)
  }

  lemma {:induction false} WithPartnerMember(rows: seq<Message>, me: Identity, partner: Identity, m: Message)
    ensures m in WithPartner(rows, me, partner) <==> m in rows && Partner(me, m) == partner
  {
    if rows != [] {
      WithPartnerMember(rows[..|rows| - 1], me, partner, m);
      assert rows == rows[..|rows| - 1] + [rows[|rows| - 1]];
    }
  }

  /** Dropping repeats and choosing a partner can be done in either order. */
  lemma {:induction false} UnseenCommutes(rows: seq<Message>, me: Identity, partner: Identity)
    requires forall m, n :: m in rows && n in rows && m.id == n.id ==> m == n
    ensures WithPartner(Unseen(rows), me, partner) == Unseen(WithPartner(rows, me, partner))
  {
    if rows != [] {
      var front, last := rows[..|rows| - 1], rows[|rows| - 1];
      assert rows == front + [last];
      UnseenCommutes(front, me, partner);
      var chosen := WithPartner(front, me, partner);
      forall m ensures m in chosen <==> m in front && Partner(me, m) == partner {
        WithPartnerMember(front, me, partner, m);
      }
      if !HasId(front, last.id) {
        assert (Unseen(front) + [last])[..|Unseen(front)|] == Unseen(front);
      }
      if Partner(me, last) == partner {
        assert (chosen + [last])[..|chosen|] == chosen;
        assert HasId(chosen, last.id) <==> HasId(front, last.id);
      }
    }
  }

  lemma {:induction false} ChooseConcat(xs: seq<Message>, ys: seq<Message>, me: Identity, partner: Identity)
    ensures WithPartner(xs + ys, me, partner) == WithPartner(xs, me, partner) + WithPartner(ys, me, partner)
  {
    if ys == [] {
      assert xs + ys == xs;
    } else {
      assert (xs + ys)[..|xs + ys| - 1] == xs + ys[..|ys| - 1];
      ChooseConcat(xs, ys[..|ys| - 1], me, partner);
    }
  }

  lemma {:induction false} SentToIsWithPartner(sent: seq<Message>, me: Identity, partner: Identity)
    requires forall m :: m in sent ==> m.sender == me
    ensures SentTo(sent, partner) == WithPartner(sent, me, partner)
  {
    if sent != [] {
      SentToIsWithPartner(sent[..|sent| - 1], me, partner);
    }
  }

  lemma {:induction false} SentFromIsWithPartner(received: seq<Message>, me: Identity, partner: Identity)
    requires forall m :: m in received ==> m.recipient == me
    ensures SentFrom(received, partner) == WithPartner(received, me, partner)
  {
    if received != [] {
      SentFromIsWithPartner(received[..|received| - 1], me, partner);
    }
  }

  /**
    For every partner, the caller included, the view and the paging procedure
    read the same thread in the same order, so they sort and cut the same list.
  */
  lemma ThreadsAgree(sent: seq<Message>, received: seq<Message>, me: Identity, partner: Identity)
    requires AreLookups(sent, received, me)
    ensures ViewThread(sent, received, me, partner) == PagedThread(sent, received, partner)
  {
    UnseenCommutes(sent + received, me, partner);
    ChooseConcat(sent, received, me, partner);
    SentToIsWithPartner(sent, me, partner);
    SentFromIsWithPartner(received, me, partner);
  }

  lemma {:induction false} UnseenMembers(rows: seq<Message>)
    requires forall m, n :: m in rows && n in rows && m.id == n.id ==> m == n
    ensures forall m :: m in Unseen(rows) <==> m in rows
    ensures UniqueIds(Unseen(rows))
  {
    if rows != [] {
      var front, last := rows[..|rows| - 1], rows[|rows| - 1];
      assert rows == front + [last];
      UnseenMembers(front);
      if !HasId(front, last.id) {
        assert forall i :: 0 <= i < |Unseen(front)| ==> Unseen(front)[i] in front;
      }
    }
  }

  /** A thread holds each message between the two once, a note to self included. */
  lemma ThreadIsExact(sent: seq<Message>, received: seq<Message>, me: Identity, partner: Identity, m: Message)
    requires AreLookups(sent, received, me)
    ensures UniqueIds(PagedThread(sent, received, partner))
    ensures m in PagedThread(sent, received, partner) <==>
      (m in sent && m.recipient == partner) || (m in received && m.sender == partner)
  {
    var chosen := SentTo(sent, partner) + SentFrom(received, partner);
    SentToIsWithPartner(sent, me, partner);
    SentFromIsWithPartner(received, me, partner);
    forall n ensures n in chosen <==>
      (n in sent && n.recipient == partner) || (n in received && n.sender == partner)
    {
      WithPartnerMember(sent, me, partner, n);
      WithPartnerMember(received, me, partner, n);
    }
    UnseenMembers(chosen);
  }

  // ---------------------------------------------------------------- the two readers

  /** One pass over both lookups: a row seen in both is kept once, in the bucket of its partner. */
  method GroupByPartner(rows: seq<Message>, me: Identity) returns (buckets: map<Identity, seq<Message>>)
    ensures forall p :: BucketOf(buckets, p) == WithPartner(Unseen(rows), me, p)
  {
    var seen: set<nat> := {};
    buckets := map[];
    ghost var done: seq<Message> := [];
    for i := 0 to |rows|
      invariant done == rows[..i]
      invariant forall id :: id in seen <==> HasId(done, id)
      invariant forall p :: BucketOf(buckets, p) == WithPartner(Unseen(done), me, p)
    {
      var row := rows[i];
      ghost var before := buckets;
      UnseenPush(done, row);
      if row.id !in seen {
        seen := seen + {row.id};
        buckets := buckets[Partner(me, row) := BucketOf(buckets, Partner(me, row)) + [row]];
      }
      forall p ensures BucketOf(buckets, p) == WithPartner(Unseen(done + [row]), me, p) {
        BucketPush(done, row, me, before, buckets, p);
      }
      done := done + [row];
    }
    assert done == rows;
  }

  function BucketOf(buckets: map<Identity, seq<Message>>, p: Identity): seq<Message> {
    if p in buckets then buckets[p] else []
  }

  /** `my_direct_messages`: the newest rows of every thread. */
  method MyDirectMessages(sent: seq<Message>, received: seq<Message>, me: Identity)
    returns (windows: map<Identity, seq<Message>>)
    ensures forall p :: p in windows ==> windows[p] == Newest(ViewThread(sent, received, me, p))
    ensures forall p :: p !in windows ==> ViewThread(sent, received, me, p) == []
  {
    var buckets := GroupByPartner(sent + received, me);
    windows := map[];
    var rest := buckets.Keys;
    while rest != {}
      invariant rest <= buckets.Keys && windows.Keys == buckets.Keys - rest
      invariant forall p :: p in windows ==> windows[p] == Newest(buckets[p])
      decreases rest
    {
      var p :| p in rest;
      var window := TakeNewest(buckets[p]);
      windows := windows[p := window];
      rest := rest - {p};
    }
  }

  lemma UnseenPush(front: seq<Message>, row: Message)
    ensures forall id :: HasId(front + [row], id) <==> HasId(front, id) || id == row.id
    ensures Unseen(front + [row]) == Unseen(front) + if HasId(front, row.id) then [] else [row]
  {
    assert (front + [row])[..|front|] == front;
  }

  /** What one more row makes of the bucket of partner `p`. */
  lemma BucketPush(front: seq<Message>, row: Message, me: Identity, before: map<Identity, seq<Message>>,
                   after: map<Identity, seq<Message>>, p: Identity)
    requires BucketOf(before, p) == WithPartner(Unseen(front), me, p)
    requires after == if HasId(front, row.id) then before
                      else before[Partner(me, row) := BucketOf(before, Partner(me, row)) + [row]]
    ensures BucketOf(after, p) == WithPartner(Unseen(front + [row]), me, p)
  {
    UnseenPush(front, row);
    if !HasId(front, row.id) {
      assert (Unseen(front) + [row])[..|Unseen(front)|] == Unseen(front);
    }
  }

  /** `load_older_direct_messages` for a caller who may read. */
  method LoadOlderDirectMessages(sent: seq<Message>, received: seq<Message>, me: Identity, partner: Identity,
                                 before: nat, limit: nat)
    returns (page: seq<Message>)
    requires AreLookups(sent, received, me)
    ensures page == OlderThan(ViewThread(sent, received, me, partner), before, PageSize(limit))
  {
    var thread: seq<Message> := [];
    var seen: set<nat> := {};
    var rows := SentTo(sent, partner) + SentFrom(received, partner);
    for i := 0 to |rows|
      invariant forall id :: id in seen <==> HasId(rows[..i], id)
      invariant thread == Unseen(rows[..i])
    {
      UnseenPush(rows[..i], rows[i]);
      assert rows[..i + 1] == rows[..i] + [rows[i]];
      if rows[i].id !in seen {
        seen := seen + {rows[i].id};
        thread := thread + [rows[i]];
      }
    }
    assert rows[..|rows|] == rows;
    ThreadsAgree(sent, received, me, partner);
    page := TakeOlder(thread, before, PageSize(limit));
  }
}
