/**
 Client events waiting to be delivered are coalesced: sorted by kind and room, then
 neighbours of one class are folded into one event
 (crates/prose-core-client/src/util/coalesce_client_events.rs).
 */
module Coalescer {
  import opened Basics
  import Folding = EventFolding

  type UserId = nat
  type MessageId = nat
  type BareJid = nat  // only equality and the order of JIDs matter

  datatype RoomId = UserRoom(jid: BareJid) | MucRoom(jid: BareJid)
  datatype RoomEnvelope = RoomEnvelope(id: RoomId, details: string)

  datatype RoomEventType =
    | MessagesAppended(messageIds: seq<MessageId>)
    | MessagesUpdated(messageIds: seq<MessageId>)
    | MessagesDeleted(messageIds: seq<MessageId>)
    | MessagesNeedReload
    | AttributesChanged
    | ParticipantsChanged
    | ComposingUsersChanged

  datatype ClientEvent =
    | ConnectionStatusChanged(event: string)
    | SidebarChanged
    | ContactChanged(ids: seq<UserId>)
    | ContactListChanged
    | PresenceSubRequestsChanged
    | BlockListChanged
    | AvatarChanged(ids: seq<UserId>)
    | AccountInfoChanged
    | RoomChanged(room: RoomEnvelope, type_: RoomEventType)

  // ---- The program's comparator and merge test ----

  function EventOrder(e: ClientEvent): nat {
    match e
    case ConnectionStatusChanged(_) => 0
    case SidebarChanged => 1
    case ContactChanged(_) => 2
    case ContactListChanged => 3
    case PresenceSubRequestsChanged => 4
    case BlockListChanged => 5
    case AvatarChanged(_) => 6
    case AccountInfoChanged => 7
    case RoomChanged(_, _) => 8
  }

  function RoomEventOrder(t: RoomEventType): nat {
    match t
    case MessagesAppended(_) => 0
    case MessagesUpdated(_) => 1
    case MessagesDeleted(_) => 2
    case MessagesNeedReload => 3
    case AttributesChanged => 4
    case ParticipantsChanged => 5
    case ComposingUsersChanged => 6
  }

  datatype Ordering = Less | Equal | Greater

  function Cmp(a: nat, b: nat): Ordering { if a < b then Less else if a == b then Equal else Greater }

  function Compare(a: ClientEvent, b: ClientEvent): Ordering {
    if a.RoomChanged? && b.RoomChanged? then
      if a.room.id == b.room.id then Cmp(RoomEventOrder(a.type_), RoomEventOrder(b.type_))
      else Cmp(a.room.id.jid, b.room.id.jid)
    else Cmp(EventOrder(a), EventOrder(b))
  }

  function MergeRoomEvents(kept: RoomEventType, next: RoomEventType): Option<RoomEventType> {
    match (kept, next)
    case (MessagesAppended(ids), MessagesAppended(more)) => Some(MessagesAppended(ids + more))
    case (MessagesUpdated(ids), MessagesUpdated(more)) => Some(MessagesUpdated(ids + more))
    case (MessagesDeleted(ids), MessagesDeleted(more)) => Some(MessagesDeleted(ids + more))
    case (MessagesNeedReload, MessagesNeedReload) => Some(kept)
    case (AttributesChanged, AttributesChanged) => Some(kept)
    case (ParticipantsChanged, ParticipantsChanged) => Some(kept)
    case (ComposingUsersChanged, ComposingUsersChanged) => Some(kept)
    case (_, _) => None
  }

  /** The dedup closure: what the kept event becomes if it swallows `next`, `None` if it does not. */
  function TryMerge(kept: ClientEvent, next: ClientEvent): Option<ClientEvent> {
    match (kept, next)
    case (ConnectionStatusChanged(_), ConnectionStatusChanged(_)) => Some(kept)
    case (SidebarChanged, SidebarChanged) => Some(kept)
    case (ContactChanged(ids), ContactChanged(more)) => Some(ContactChanged(ids + more))
    case (ContactListChanged, ContactListChanged) => Some(kept)
    case (PresenceSubRequestsChanged, PresenceSubRequestsChanged) => Some(kept)
    case (BlockListChanged, BlockListChanged) => Some(kept)
    case (AvatarChanged(ids), AvatarChanged(more)) => Some(AvatarChanged(ids + more))
    case (AccountInfoChanged, AccountInfoChanged) => Some(kept)
    case (RoomChanged(room, t), RoomChanged(room', t')) =>
      if room.id != room'.id then None
      else (match MergeRoomEvents(t, t')
            case None => None
            case Some(merged) => Some(RoomChanged(room, merged)))
    case (_, _) => None
  }

  // ---- The program ----

  function Position(sorted: seq<ClientEvent>, e: ClientEvent): (i: nat)
    ensures i <= |sorted|
  {
    if sorted != [] && Compare(sorted[|sorted| - 1], e) == Greater then Position(sorted[..|sorted| - 1], e)
    else |sorted|
  }

  /** Stands for the library's stable `sort_by`; a stable sort has no freedom (`EventFolding.StableSortIsUnique`). */
  function StableSort(es: seq<ClientEvent>): seq<ClientEvent> {
    if es == [] then []
    else
      var sorted, e := StableSort(es[..|es| - 1]), es[|es| - 1];
      Folding.InsertAt(sorted, Position(sorted, e), e)
  }

  function Absorb(kept: seq<ClientEvent>, e: ClientEvent): seq<ClientEvent> {
    if kept != [] && TryMerge(kept[|kept| - 1], e).Some?
    then kept[|kept| - 1 := TryMerge(kept[|kept| - 1], e).value]
    else kept + [e]
  }

  function Dedup(es: seq<ClientEvent>): seq<ClientEvent> {
    if es == [] then [] else Absorb(Dedup(es[..|es| - 1]), es[|es| - 1])
  }

  function Coalesce(es: seq<ClientEvent>): seq<ClientEvent> { Dedup(StableSort(es)) }

  /** Sorts the queue, then walks it once, letting the last kept event swallow its successors. */
  method CoalesceClientEvents(events: seq<ClientEvent>) returns (out: seq<ClientEvent>)
    ensures out == Coalesce(events)
    ensures RoomsDistinct(events) ==> Folding.Coalesced(Describe(events), Describe(out))
  {
    var sorted := StableSort(events);
    out := [];
    for n := 0 to |sorted|
      invariant out == Dedup(sorted[..n])
    {
      assert sorted[..n + 1][..n] == sorted[..n];
      out := Absorb(out, sorted[n]);
    }
    assert sorted[..|sorted|] == sorted;
    if RoomsDistinct(events) {
      CoalesceIsExact(events);
    }
  }

  // ---- Events as items of a class ----

  /** The ids an event carries, and what is left of it without them. */
  function Ids(e: ClientEvent): seq<nat> {
    match e
    case ContactChanged(ids) => ids
    case AvatarChanged(ids) => ids
    case RoomChanged(_, MessagesAppended(ids)) => ids
    case RoomChanged(_, MessagesUpdated(ids)) => ids
    case RoomChanged(_, MessagesDeleted(ids)) => ids
    case _ => []
  }

  function WithoutIds(e: ClientEvent): ClientEvent {
    match e
    case ContactChanged(_) => ContactChanged([])
    case AvatarChanged(_) => AvatarChanged([])
    case RoomChanged(room, MessagesAppended(_)) => RoomChanged(room, MessagesAppended([]))
    case RoomChanged(room, MessagesUpdated(_)) => RoomChanged(room, MessagesUpdated([]))
    case RoomChanged(room, MessagesDeleted(_)) => RoomChanged(room, MessagesDeleted([]))
    case _ => e
  }

  /** A number for every room, in the order of their JIDs. */
  function RoomRank(id: RoomId): nat { 2 * id.jid + if id.MucRoom? then 1 else 0 }

  /** Event kind, plus room and room event kind. */
  function ClassOf(e: ClientEvent): Folding.Class {
    if e.RoomChanged? then Folding.Class(8, RoomRank(e.room.id), RoomEventOrder(e.type_))
    else Folding.Class(EventOrder(e), 0, 0)
  }

  type Item = Folding.Item<ClientEvent>

  function ItemOf(e: ClientEvent): Item { Folding.Item(ClassOf(e), WithoutIds(e), Ids(e)) }

  function Describe(es: seq<ClientEvent>): (xs: seq<Item>)
    ensures |xs| == |es| && forall i :: 0 <= i < |es| ==> xs[i] == ItemOf(es[i])
  {
    seq(|es|, i requires 0 <= i < |es| => ItemOf(es[i]))
  }

  /** Distinct rooms have distinct bare JIDs: no contact and MUC room share one. */
  ghost predicate RoomsDistinct(es: seq<ClientEvent>) {
    forall i, j :: 0 <= i < |es| && 0 <= j < |es| ==> Compatible(es[i], es[j])
  }

  predicate Compatible(a: ClientEvent, b: ClientEvent) {
    a.RoomChanged? && b.RoomChanged? && a.room.id.jid == b.room.id.jid ==> a.room.id == b.room.id
  }

  /** A directory that names the one room behind each bare JID. */
  type Directory = map<BareJid, RoomId>

  predicate Listed(rooms: Directory, e: ClientEvent) {
    e.RoomChanged? ==> e.room.id.jid in rooms && rooms[e.room.id.jid] == e.room.id
  }

  ghost predicate AllListed(rooms: Directory, es: seq<ClientEvent>) {
    forall i :: 0 <= i < |es| ==> Listed(rooms, es[i])
  }

  ghost function DirectoryOf(es: seq<ClientEvent>): Directory {
    if es == [] then map[]
    else
      var rooms, e := DirectoryOf(es[..|es| - 1]), es[|es| - 1];
      if e.RoomChanged? then rooms[e.room.id.jid := e.room.id] else rooms
  }

  lemma {:induction false} DistinctRoomsAreListed(es: seq<ClientEvent>)
    requires RoomsDistinct(es)
    ensures AllListed(DirectoryOf(es), es)
  {
    if es != [] {
      var n := |es| - 1;
      DistinctRoomsAreListed(es[..n]);
      forall i | 0 <= i < |es| ensures Listed(DirectoryOf(es), es[i]) {
        assert Compatible(es[i], es[n]);
        if i < n { assert Listed(DirectoryOf(es[..n]), es[..n][i]); }
      }
    }
  }

  // ---- The comparator and the merge test follow the classes ----

  lemma ItemIsWholeEvent(a: ClientEvent, b: ClientEvent)
    requires ItemOf(a) == ItemOf(b)
    ensures a == b
  {
  }

  lemma DescribeIsInjective(a: seq<ClientEvent>, b: seq<ClientEvent>)
    requires Describe(a) == Describe(b)
    ensures a == b
  {
    forall i | 0 <= i < |a| ensures i < |b| && a[i] == b[i] {
      assert Describe(a)[i] == Describe(b)[i];
      ItemIsWholeEvent(a[i], b[i]);
    }
  }

  lemma ComparatorFollowsClasses(rooms: Directory, a: ClientEvent, b: ClientEvent)
    requires Listed(rooms, a) && Listed(rooms, b)
    ensures Compare(a, b) == Greater <==> Folding.Before(ClassOf(b), ClassOf(a))
    ensures Compare(a, b) == Equal <==> ClassOf(a) == ClassOf(b)
  {
  }

  lemma MergeFollowsClasses(rooms: Directory, kept: ClientEvent, e: ClientEvent)
    requires Listed(rooms, kept) && Listed(rooms, e)
    ensures TryMerge(kept, e).Some? <==> ClassOf(kept) == ClassOf(e)
    ensures TryMerge(kept, e).Some? ==>
              && Listed(rooms, TryMerge(kept, e).value)
              && ItemOf(TryMerge(kept, e).value) == ItemOf(kept).(ids := Ids(kept) + Ids(e))
  {
  }

  lemma {:induction false} PositionFollowsClasses(rooms: Directory, sorted: seq<ClientEvent>, e: ClientEvent)
    requires AllListed(rooms, sorted) && Listed(rooms, e)
    ensures Position(sorted, e) == Folding.Position(Describe(sorted), ClassOf(e))
  {
    if sorted != [] {
      var n := |sorted| - 1;
      ComparatorFollowsClasses(rooms, sorted[n], e);
      assert Describe(sorted)[..n] == Describe(sorted[..n]);
      PositionFollowsClasses(rooms, sorted[..n], e);
    }
  }

  lemma {:induction false} SortFollowsClasses(rooms: Directory, es: seq<ClientEvent>)
    requires AllListed(rooms, es)
    ensures Describe(StableSort(es)) == Folding.Sort(Describe(es)) && AllListed(rooms, StableSort(es))
  {
    if es != [] {
      var n := |es| - 1;
      var sorted, e := StableSort(es[..n]), es[n];
      SortFollowsClasses(rooms, es[..n]);
      assert Describe(es)[..n] == Describe(es[..n]);
      PositionFollowsClasses(rooms, sorted, e);
      InsertFollowsClasses(rooms, sorted, Position(sorted, e), e);
    }
  }

  lemma InsertFollowsClasses(rooms: Directory, sorted: seq<ClientEvent>, i: nat, e: ClientEvent)
    requires i <= |sorted| && AllListed(rooms, sorted) && Listed(rooms, e)
    ensures Describe(Folding.InsertAt(sorted, i, e)) == Folding.InsertAt(Describe(sorted), i, ItemOf(e))
    ensures AllListed(rooms, Folding.InsertAt(sorted, i, e))
  {
    var out := Folding.InsertAt(sorted, i, e);
    assert forall j :: 0 <= j < |out| ==> out[j] == if j < i then sorted[j] else if j == i then e else sorted[j - 1];
  }

  lemma AbsorbFollowsClasses(rooms: Directory, kept: seq<ClientEvent>, e: ClientEvent)
    requires AllListed(rooms, kept) && Listed(rooms, e)
    ensures Describe(Absorb(kept, e)) == Folding.Absorb(Describe(kept), ItemOf(e)) && AllListed(rooms, Absorb(kept, e))
  {
    if kept != [] { MergeFollowsClasses(rooms, kept[|kept| - 1], e); }
  }

  lemma {:induction false} DedupFollowsClasses(rooms: Directory, es: seq<ClientEvent>)
    requires AllListed(rooms, es)
    ensures Describe(Dedup(es)) == Folding.Fold(Describe(es)) && AllListed(rooms, Dedup(es))
  {
    if es != [] {
      var n := |es| - 1;
      DedupFollowsClasses(rooms, es[..n]);
      assert Describe(es)[..n] == Describe(es[..n]);
      AbsorbFollowsClasses(rooms, Dedup(es[..n]), es[n]);
    }
  }

  lemma CoalesceFollowsClasses(rooms: Directory, es: seq<ClientEvent>)
    requires AllListed(rooms, es)
    ensures Describe(Coalesce(es)) == Folding.Coalesce(Describe(es)) && AllListed(rooms, Coalesce(es))
  {
    SortFollowsClasses(rooms, es);
    DedupFollowsClasses(rooms, StableSort(es));
  }

  // ---- What the queue looks like afterwards ----

  /**
   One event per class present, in comparator order; its ids are those of the whole
   class in arrival order, everything else comes from the class's earliest event.
   */
  lemma CoalesceIsExact(es: seq<ClientEvent>)
    requires RoomsDistinct(es)
    ensures Folding.Coalesced(Describe(es), Describe(Coalesce(es)))
  {
    DistinctRoomsAreListed(es);
    CoalesceFollowsClasses(DirectoryOf(es), es);
    Folding.CoalesceIsCoalesced(Describe(es));
  }

  /** Room events of one room, in the order they are delivered. */
  predicate TypePrecedes(a: RoomEventType, b: RoomEventType) {
    match a
    case MessagesAppended(_) => !b.MessagesAppended?
    case MessagesUpdated(_) => !b.MessagesAppended? && !b.MessagesUpdated?
    case MessagesDeleted(_) => !b.MessagesAppended? && !b.MessagesUpdated? && !b.MessagesDeleted?
    case MessagesNeedReload => b.AttributesChanged? || b.ParticipantsChanged? || b.ComposingUsersChanged?
    case AttributesChanged => b.ParticipantsChanged? || b.ComposingUsersChanged?
    case ParticipantsChanged => b.ComposingUsersChanged?
    case ComposingUsersChanged => false
  }

  /** The order of delivery: what concerns the client first, then room by room in the order of their JIDs. */
  predicate Precedes(a: ClientEvent, b: ClientEvent) {
    match a
    case ConnectionStatusChanged(_) => !b.ConnectionStatusChanged?
    case SidebarChanged => !b.ConnectionStatusChanged? && !b.SidebarChanged?
    case ContactChanged(_) => !b.ConnectionStatusChanged? && !b.SidebarChanged? && !b.ContactChanged?
    case ContactListChanged =>
      b.PresenceSubRequestsChanged? || b.BlockListChanged? || b.AvatarChanged? || b.AccountInfoChanged? ||
      b.RoomChanged?
    case PresenceSubRequestsChanged =>
      b.BlockListChanged? || b.AvatarChanged? || b.AccountInfoChanged? || b.RoomChanged?
    case BlockListChanged => b.AvatarChanged? || b.AccountInfoChanged? || b.RoomChanged?
    case AvatarChanged(_) => b.AccountInfoChanged? || b.RoomChanged?
    case AccountInfoChanged => b.RoomChanged?
    case RoomChanged(room, t) =>
      b.RoomChanged? && if room.id == b.room.id then TypePrecedes(t, b.type_) else room.id.jid < b.room.id.jid
  }

  lemma TypesPrecede(a: RoomEventType, b: RoomEventType)
    ensures TypePrecedes(a, b) <==> RoomEventOrder(a) < RoomEventOrder(b)
  {
  }

  lemma EventsPrecede(rooms: Directory, a: ClientEvent, b: ClientEvent)
    requires Listed(rooms, a) && Listed(rooms, b)
    ensures Precedes(a, b) <==> Folding.Before(ClassOf(a), ClassOf(b))
  {
    if a.RoomChanged? && b.RoomChanged? { TypesPrecede(a.type_, b.type_); }
  }

  /** After coalescing, of any two events the earlier one is of a kind that is delivered first. */
  lemma DeliveredInOrder(es: seq<ClientEvent>)
    requires RoomsDistinct(es)
    ensures var out := Coalesce(es); forall i, j :: 0 <= i < j < |out| ==> Precedes(out[i], out[j])
  {
    var out, rooms := Coalesce(es), DirectoryOf(es);
    DistinctRoomsAreListed(es);
    CoalesceFollowsClasses(rooms, es);
    CoalesceIsExact(es);
    forall i, j | 0 <= i < j < |out| ensures Precedes(out[i], out[j]) {
      assert Describe(out)[i] == ItemOf(out[i]) && Describe(out)[j] == ItemOf(out[j]);
      EventsPrecede(rooms, out[i], out[j]);
    }
  }

  /** Coalescing a queue whose front was coalesced before gives the same list as coalescing it all at once. */
  lemma CoalescingIsIncremental(p: seq<ClientEvent>, s: seq<ClientEvent>)
    requires RoomsDistinct(p + s)
    ensures Coalesce(Coalesce(p) + s) == Coalesce(p + s)
  {
    var rooms, a := DirectoryOf(p + s), Coalesce(p);
    DistinctRoomsAreListed(p + s);
    ListedApart(rooms, p, s);
    CoalesceFollowsClasses(rooms, p);
    ListedApart(rooms, a, s);
    CoalesceFollowsClasses(rooms, a + s);
    CoalesceFollowsClasses(rooms, p + s);
    Folding.CoalescingIsIncremental(Describe(p), Describe(s));
    DescribeIsInjective(Coalesce(a + s), Coalesce(p + s));
  }

  lemma ListedApart(rooms: Directory, p: seq<ClientEvent>, s: seq<ClientEvent>)
    ensures AllListed(rooms, p + s) <==> AllListed(rooms, p) && AllListed(rooms, s)
    ensures Describe(p + s) == Describe(p) + Describe(s)
  {
    if AllListed(rooms, p + s) {
      forall i | 0 <= i < |p| ensures Listed(rooms, p[i]) { assert (p + s)[i] == p[i]; }
      forall i | 0 <= i < |s| ensures Listed(rooms, s[i]) { assert (p + s)[|p| + i] == s[i]; }
    }
  }

  lemma CoalescingIsIdempotent(p: seq<ClientEvent>)
    requires RoomsDistinct(p)
    ensures Coalesce(Coalesce(p)) == Coalesce(p)
  {
    assert p + [] == p && Coalesce(p) + [] == Coalesce(p);
    CoalescingIsIncremental(p, []);
  }

  // ---- Which rooms may be in use together? ----

  ghost predicate OverRooms(rooms: set<RoomId>, es: seq<ClientEvent>) {
    forall i :: 0 <= i < |es| && es[i].RoomChanged? ==> es[i].room.id in rooms
  }

  ghost predicate ExactOver(rooms: set<RoomId>) {
    forall es :: OverRooms(rooms, es) ==> Folding.Coalesced(Describe(es), Describe(Coalesce(es)))
  }

  ghost predicate JidsDistinct(rooms: set<RoomId>) {
    forall a, b :: a in rooms && b in rooms && a.jid == b.jid ==> a == b
  }

  function Touch(room: RoomId): ClientEvent { RoomChanged(RoomEnvelope(room, ""), AttributesChanged) }

  /** A contact and a MUC room sharing a JID compare equal but do not merge: two events of one class survive. */
  lemma SharedJidDefeatsCoalescing(a: RoomId, b: RoomId)
    requires a != b && a.jid == b.jid
    ensures var x, y := Touch(a), Touch(b);
            && Coalesce([x, y, x]) == [x, y, x]
            && !Folding.Coalesced(Describe([x, y, x]), Describe(Coalesce([x, y, x])))
  {
    var x, y := Touch(a), Touch(b);
    StaysAsItIs([], x);
    assert [] + [x] == [x];
    StaysAsItIs([x], y);
    assert [x] + [y] == [x, y];
    StaysAsItIs([x, y], x);
    assert [x, y] + [x] == [x, y, x];
    var out := Describe([x, y, x]);
    assert out[0] == ItemOf(x) && out[2] == ItemOf(x);
  }

  lemma DistinctJidsAreDistinctRooms(rooms: set<RoomId>, es: seq<ClientEvent>)
    requires JidsDistinct(rooms) && OverRooms(rooms, es)
    ensures RoomsDistinct(es)
  {
    forall i, j | 0 <= i < |es| && 0 <= j < |es| ensures Compatible(es[i], es[j]) { }
  }

  /** Coalescing is exact on all event lists over a set of rooms if and only if no two of them share a bare JID. */
  lemma ExactExactlyForDistinctJids(rooms: set<RoomId>)
    ensures ExactOver(rooms) <==> JidsDistinct(rooms)
  {
    if JidsDistinct(rooms) {
      forall es | OverRooms(rooms, es) ensures Folding.Coalesced(Describe(es), Describe(Coalesce(es))) {
        DistinctJidsAreDistinctRooms(rooms, es);
        CoalesceIsExact(es);
      }
    } else {
      var a, b :| a in rooms && b in rooms && a.jid == b.jid && a != b;
      SharedJidDefeatsCoalescing(a, b);
      var x, y := Touch(a), Touch(b);
      assert OverRooms(rooms, [x, y, x]);
    }
  }

  lemma SortStays(front: seq<ClientEvent>, e: ClientEvent)
    requires StableSort(front) == front && (front != [] ==> Compare(front[|front| - 1], e) != Greater)
    ensures StableSort(front + [e]) == front + [e]
  {
    assert (front + [e])[..|front|] == front;
    assert Position(front, e) == |front|;
    InsertAtEnd(front, e);
  }

  lemma DedupStays(front: seq<ClientEvent>, e: ClientEvent)
    requires Dedup(front) == front && (front != [] ==> TryMerge(front[|front| - 1], e).None?)
    ensures Dedup(front + [e]) == front + [e]
  {
    var all := front + [e];
    assert all[..|all| - 1] == front && all[|all| - 1] == e;
    assert Absorb(front, e) == front + [e];
  }

  lemma StaysAsItIs(front: seq<ClientEvent>, e: ClientEvent)
    requires StableSort(front) == front && Dedup(front) == front
    requires front != [] ==> Compare(front[|front| - 1], e) != Greater && TryMerge(front[|front| - 1], e).None?
    ensures StableSort(front + [e]) == front + [e] && Dedup(front + [e]) == front + [e]
  {
    SortStays(front, e);
    DedupStays(front, e);
  }

  lemma InsertAtEnd<T>(front: seq<T>, x: T)
    ensures Folding.InsertAt(front, |front|, x) == front + [x]
  {
  }

  /** A room event of a contact and of a MUC room sharing its JID make the comparator intransitive. */
  lemma SharedJidBreaksComparator(jid: BareJid)
    ensures exists a: ClientEvent, b: ClientEvent, c: ClientEvent ::
              && a.RoomChanged? && b.RoomChanged? && c.RoomChanged?
              && a.room.id.jid == b.room.id.jid == c.room.id.jid == jid
              && Compare(a, b) == Equal && Compare(b, c) == Equal && Compare(a, c) == Less
  {
    var u, m := RoomEnvelope(UserRoom(jid), ""), RoomEnvelope(MucRoom(jid), "");
    var a, b, c := RoomChanged(u, MessagesNeedReload), Touch(m.id), Touch(u.id);
    assert Compare(a, b) == Equal && Compare(b, c) == Equal && Compare(a, c) == Less;
  }
}
