/**
 * The in-memory event table of the application: its record types, the simulated current
 * user, the seed events, the lookup by id and the updaters that replace one event with an
 * edited copy.
 */
module Data {
  import opened Wrappers
  import Text
  import Seqs

  datatype Participant = Participant(avatar: string, name: string)

  /** A candidate venue; `vetoedBy` lists the names of the participants who vetoed it. */
  datatype Location = Location(
    id: string,
    name: string,
    address: string,
    vetoedBy: Option<seq<string>> := None,
    votes: Option<int> := None)

  datatype EventStatus = AwaitingResponse | Voting | ResultsReady | Ended | AllOptionsVetoed {
    /** The label stored in the record and shown on the badge. */
    function Label(): string {
      match this
      case AwaitingResponse => "需要你响应"
      case Voting => "投票中"
      case ResultsReady => "结果已出"
      case Ended => "已结束"
      case AllOptionsVetoed => "所有选项均被否决"
    }
  }

  datatype RsvpStatus = Attending | Declined | Tentative {
    function Label(): string {
      match this
      case Attending => "已参加"
      case Declined => "已拒绝"
      case Tentative => "已待定"
    }
  }

  datatype ReconfirmationStatus = ConfirmedAttendance | DeclinedAttendance {
    function Label(): string {
      match this
      case ConfirmedAttendance => "已确认参加"
      case DeclinedAttendance => "已拒绝参加"
    }
  }

  datatype Event = Event(
    id: string,
    name: string,
    date: string,
    status: EventStatus,
    description: string,
    budgetRange: string,
    participants: seq<Participant>,
    recommendedLocations: Option<seq<Location>> := None,
    finalLocation: Option<Location> := None,
    allVetoed: Option<bool> := None,
    rsvpDeadline: Option<string> := None,
    userRsvpStatus: Option<RsvpStatus> := None,
    initiatorName: string,
    confirmedParticipants: Option<seq<Participant>> := None,
    userReconfirmationStatus: Option<ReconfirmationStatus> := None,
    reconfirmationDeadline: Option<string> := None)

  /** What a caller of `addEvent` supplies: every field except those the table fills in. */
  datatype NewEvent = NewEvent(
    name: string,
    date: string,
    description: string,
    budgetRange: string,
    recommendedLocations: Option<seq<Location>> := None,
    finalLocation: Option<Location> := None,
    allVetoed: Option<bool> := None,
    rsvpDeadline: Option<string> := None,
    reconfirmationDeadline: Option<string> := None)

  /** The simulated signed-in user. */
  const CurrentUser: Participant := Participant("/placeholder.svg?height=32&width=32", "当前用户")

  /** Distinct statuses carry distinct labels, and no RSVP label is an event-status label. */
  lemma LabelsDistinct(s: EventStatus, t: EventStatus, r: RsvpStatus, q: RsvpStatus)
    ensures s.Label() == t.Label() ==> s == t
    ensures r.Label() == q.Label() ==> r == q
    ensures s.Label() != r.Label()
  {
  }

  // ---------------------------------------------------------------------------------
  // Lookup

  /** `events.findIndex(e => e.id === id)`, with nothing for -1. */
  function FindIndex(events: seq<Event>, id: string): (r: Option<nat>)
    ensures r.Some? ==> r.value < |events| && events[r.value].id == id
    ensures r.Some? ==> forall k :: 0 <= k < r.value ==> events[k].id != id
    ensures r.None? ==> forall k :: 0 <= k < |events| ==> events[k].id != id
  {
    if events == [] then None
    else if events[0].id == id then Some(0)
    else
      match FindIndex(events[1..], id)
      case None => None
      case Some(k) => Some(k + 1)
  }

  /** Every event carries its one-based position, in decimal, as its id. */
  ghost predicate PositionalIds(events: seq<Event>) {
    forall k :: 0 <= k < |events| ==> events[k].id == Text.Decimal(k + 1)
  }

  /** An id held at `k` and at no earlier position is found at `k`. */
  lemma FindFirst(events: seq<Event>, id: string, k: nat)
    requires k < |events| && events[k].id == id
    requires forall j :: 0 <= j < k ==> events[j].id != id
    ensures FindIndex(events, id) == Some(k)
  {
  }

  /** With positional ids, the id of position `k` finds exactly that position. */
  lemma PositionalLookup(events: seq<Event>, k: nat)
    requires PositionalIds(events) && k < |events|
    ensures FindIndex(events, Text.Decimal(k + 1)) == Some(k)
  {
    var id := Text.Decimal(k + 1);
    forall j | 0 <= j < k
      ensures events[j].id != id
    {
      if events[j].id == id {
        Text.RadixInjective(j + 1, k + 1, 10);
      }
    }
    FindFirst(events, id, k);
  }

  /** With positional ids, the id the next appended event receives is not yet taken. */
  lemma PositionalFreshId(events: seq<Event>)
    requires PositionalIds(events)
    ensures FindIndex(events, Text.Decimal(|events| + 1)).None?
  {
    var id := Text.Decimal(|events| + 1);
    forall j | 0 <= j < |events|
      ensures events[j].id != id
    {
      if events[j].id == id {
        Text.RadixInjective(j + 1, |events| + 1, 10);
      }
    }
  }

  // ---------------------------------------------------------------------------------
  // Participant lists, matched by name

  predicate HasName(ps: seq<Participant>, name: string) {
    exists q :: q in ps && q.name == name
  }

  /** No two participants in the list share a name. */
  predicate UniqueNames(ps: seq<Participant>) {
    Seqs.DistinctBy(ps, (p: Participant) => p.name)
  }

  /** Append `p` unless someone with its name is already listed. */
  function AddIfAbsent(ps: seq<Participant>, p: Participant): (r: seq<Participant>)
    ensures HasName(r, p.name)
    ensures HasName(ps, p.name) ==> r == ps
    ensures !HasName(ps, p.name) ==> r == ps + [p]
  {
    if HasName(ps, p.name) then ps else ps + [p]
  }

  /** Every participant named `name` removed, the others kept in order. */
  function WithoutName(ps: seq<Participant>, name: string): (r: seq<Participant>)
    ensures !HasName(r, name)
    ensures forall q :: q in r <==> q in ps && q.name != name
    ensures Seqs.IsSubsequence(r, ps)
    ensures !HasName(ps, name) ==> r == ps
    ensures forall q :: multiset(r)[q] == if q.name != name then multiset(ps)[q] else 0
  {
    var keep := (q: Participant) => q.name != name;
    var r := Seqs.Filter(ps, keep);
    Seqs.FilterIsSubsequence(ps, keep);
    Seqs.FilterCounts(ps, keep);
    if HasName(ps, name) then r else Seqs.FilterAll(ps, keep); r
  }

  /** The participant list after an RSVP: attending adds by name, anything else removes by name. */
  function RsvpParticipants(ps: seq<Participant>, p: Participant, rsvp: Option<RsvpStatus>): (r: seq<Participant>)
    // everyone with another name keeps every copy, in the list's own order
    ensures forall q: Participant :: q.name != p.name ==> multiset(r)[q] == multiset(ps)[q]
    // attending can only append; any other answer can only remove
    ensures rsvp == Some(Attending) ==> ps <= r
    ensures rsvp != Some(Attending) ==> Seqs.IsSubsequence(r, ps)
  {
    if rsvp == Some(Attending) then AddIfAbsent(ps, p) else WithoutName(ps, p.name)
  }

  /** The confirmed list after a reconfirmation; a missing list counts as empty. */
  function ReconfirmedParticipants(cps: Option<seq<Participant>>, p: Participant, status: ReconfirmationStatus): (r: seq<Participant>)
    // everyone with another name keeps every copy of the (possibly missing) list
    ensures forall q: Participant :: q.name != p.name ==> multiset(r)[q] == multiset(cps.GetOr([]))[q]
    ensures status == ConfirmedAttendance ==> cps.GetOr([]) <= r
    ensures status != ConfirmedAttendance ==> Seqs.IsSubsequence(r, cps.GetOr([]))
  {
    var current := cps.GetOr([]);
    if status == ConfirmedAttendance then AddIfAbsent(current, p) else WithoutName(current, p.name)
  }

  /** An RSVP leaves the actor listed exactly when it is "attending", and keeps everyone else. */
  lemma RsvpOutcome(ps: seq<Participant>, p: Participant, rsvp: Option<RsvpStatus>)
    ensures HasName(RsvpParticipants(ps, p, rsvp), p.name) <==> rsvp == Some(Attending)
    ensures forall q :: q in ps && q.name != p.name ==> q in RsvpParticipants(ps, p, rsvp)
    ensures forall q :: q in RsvpParticipants(ps, p, rsvp) ==> q in ps || q == p
  {
  }

  /** Repeating an RSVP changes nothing the first one did not. */
  lemma {:induction false} RsvpIdempotent(ps: seq<Participant>, p: Participant, rsvp: Option<RsvpStatus>)
    ensures RsvpParticipants(RsvpParticipants(ps, p, rsvp), p, rsvp) == RsvpParticipants(ps, p, rsvp)
  {
    if rsvp != Some(Attending) {
      Seqs.FilterIdempotent(ps, (q: Participant) => q.name != p.name);
    }
  }

  /** Repeating a reconfirmation changes nothing the first one did not. */
  lemma {:induction false} ReconfirmIdempotent(cps: Option<seq<Participant>>, p: Participant, status: ReconfirmationStatus)
    ensures ReconfirmedParticipants(Some(ReconfirmedParticipants(cps, p, status)), p, status)
            == ReconfirmedParticipants(cps, p, status)
  {
    if status == DeclinedAttendance {
      Seqs.FilterIdempotent(cps.GetOr([]), (q: Participant) => q.name != p.name);
    }
  }

  /** A reconfirmation leaves the actor confirmed exactly when it is "confirmed". */
  lemma ReconfirmOutcome(cps: Option<seq<Participant>>, p: Participant, status: ReconfirmationStatus)
    ensures HasName(ReconfirmedParticipants(cps, p, status), p.name) <==> status == ConfirmedAttendance
    ensures forall q :: q in cps.GetOr([]) && q.name != p.name ==> q in ReconfirmedParticipants(cps, p, status)
  {
  }

  /** Both list rules keep participant names unique. */
  lemma {:induction false} RosterKeepsUniqueNames(ps: seq<Participant>, p: Participant, rsvp: Option<RsvpStatus>)
    requires UniqueNames(ps)
    ensures UniqueNames(RsvpParticipants(ps, p, rsvp))
  {
    if rsvp == Some(Attending) {
      if !HasName(ps, p.name) {
        var r := ps + [p];
        forall i, j | 0 <= i < j < |r| ensures r[i].name != r[j].name {
          if j == |ps| {
            assert r[i] == ps[i];
          } else {
            assert r[i] == ps[i] && r[j] == ps[j];
          }
        }
      }
    } else {
      Seqs.FilterKeepsDistinct(ps, (q: Participant) => q.name != p.name, (q: Participant) => q.name);
    }
  }

  // ---------------------------------------------------------------------------------
  // The table

  /**
   * `after` is `before` with the first event whose id is `id` replaced by `edit` of it,
   * or `before` itself when no event has that id.
   */
  ghost predicate EditedFirst(before: seq<Event>, after: seq<Event>, id: string, edit: Event -> Event) {
    match FindIndex(before, id)
    case None => after == before
    case Some(i) => after == before[i := edit(before[i])]
  }

  /**
   * What every updater keeps: the length, every slot other than the first match, and with
   * no match the whole table.
   */
  lemma EditedFirstFrame(before: seq<Event>, after: seq<Event>, id: string, edit: Event -> Event)
    requires EditedFirst(before, after, id, edit)
    ensures |after| == |before|
    ensures forall k :: 0 <= k < |before| && FindIndex(before, id) != Some(k) ==> after[k] == before[k]
    ensures forall k :: 0 <= k < |before| && before[k].id != id ==> after[k] == before[k]
    ensures FindIndex(before, id).None? ==> after == before
    ensures forall i :: FindIndex(before, id) == Some(i) ==> after[i] == edit(before[i])
  {
  }

  class EventTable {
    var events: seq<Event>

    ghost predicate Valid()
      reads this
    {
      PositionalIds(events)
    }

    /** The table starts with the seed events. */
    constructor ()
      ensures Valid() && events == SeedEvents()
    {
      events := SeedEvents();
      SeedIsPositional();
    }

    /** `getEventById`: the first event with the id, or nothing. */
    function GetEventById(id: string): (r: Option<Event>)
      reads this
      ensures r.Some? <==> exists k :: 0 <= k < |events| && events[k].id == id
      ensures r.Some? ==> r.value.id == id
      ensures FindIndex(events, id).Some? ==> r == Some(events[FindIndex(events, id).value])
      ensures FindIndex(events, id).None? ==> r.None?
      ensures r.Some? ==> exists k :: 0 <= k < |events| && events[k] == r.value
                                      && (forall j :: 0 <= j < k ==> events[j].id != id)
    {
      match FindIndex(events, id)
      case None => None
      case Some(i) => Some(events[i])
    }

    /**
     * `addEvent`: appends one event under the next positional id, with the current user
     * as initiator, sole participant and sole confirmed participant.
     */
    method AddEvent(newEvent: NewEvent) returns (added: Event)
      requires Valid()
      modifies this
      ensures Valid()
      ensures events == old(events) + [added]
      ensures added.id == Text.Decimal(|old(events)| + 1)
      ensures GetEventById(added.id) == Some(added)
      ensures forall k :: 0 <= k < |old(events)| ==> old(events)[k].id != added.id
      ensures added.status == AwaitingResponse
      ensures added.participants == [CurrentUser] && added.confirmedParticipants == Some([CurrentUser])
      ensures added.initiatorName == CurrentUser.name
      ensures added.userRsvpStatus == Some(Attending)
      ensures added.userReconfirmationStatus == Some(ConfirmedAttendance)
      ensures && added.name == newEvent.name && added.date == newEvent.date
              && added.description == newEvent.description && added.budgetRange == newEvent.budgetRange
              && added.recommendedLocations == newEvent.recommendedLocations
              && added.finalLocation == newEvent.finalLocation && added.allVetoed == newEvent.allVetoed
              && added.rsvpDeadline == newEvent.rsvpDeadline
              && added.reconfirmationDeadline == newEvent.reconfirmationDeadline
    {
      var newId := Text.Decimal(|events| + 1);
      PositionalFreshId(events);
      added := Event(
        id := newId,
        name := newEvent.name,
        date := newEvent.date,
        status := AwaitingResponse,
        description := newEvent.description,
        budgetRange := newEvent.budgetRange,
        participants := [CurrentUser],
        recommendedLocations := newEvent.recommendedLocations,
        finalLocation := newEvent.finalLocation,
        allVetoed := newEvent.allVetoed,
        rsvpDeadline := newEvent.rsvpDeadline,
        userRsvpStatus := Some(Attending),
        initiatorName := CurrentUser.name,
        confirmedParticipants := Some([CurrentUser]),
        userReconfirmationStatus := Some(ConfirmedAttendance),
        reconfirmationDeadline := newEvent.reconfirmationDeadline);
      events := events + [added];
      PositionalLookup(events, |events| - 1);
    }

    /** `updateEventStatus`: only the status of the first matching event changes. */
    method UpdateEventStatus(id: string, newStatus: EventStatus)
      requires Valid()
      modifies this
      ensures Valid()
      ensures EditedFirst(old(events), events, id, (e: Event) => e.(status := newStatus))
    {
      var found := FindIndex(events, id);
      if found.Some? {
        var i := found.value;
        events := events[i := events[i].(status := newStatus)];
      }
    }

    /** `updateParticipantStatus`: only the participant list changes, by the RSVP rule. */
    method UpdateParticipantStatus(id: string, participant: Participant, rsvp: Option<RsvpStatus>)
      requires Valid()
      modifies this
      ensures Valid()
      ensures EditedFirst(old(events), events, id,
                          (e: Event) => e.(participants := RsvpParticipants(e.participants, participant, rsvp)))
    {
      var found := FindIndex(events, id);
      if found.Some? {
        var i := found.value;
        var newParticipants := RsvpParticipants(events[i].participants, participant, rsvp);
        events := events[i := events[i].(participants := newParticipants)];
      }
    }

    /** `updateUserRsvpStatus`: only the (shared) RSVP status field changes. */
    method UpdateUserRsvpStatus(id: string, status: Option<RsvpStatus>)
      requires Valid()
      modifies this
      ensures Valid()
      ensures EditedFirst(old(events), events, id, (e: Event) => e.(userRsvpStatus := status))
    {
      var found := FindIndex(events, id);
      if found.Some? {
        var i := found.value;
        events := events[i := events[i].(userRsvpStatus := status)];
      }
    }

    /**
     * `updateUserReconfirmationStatus`: the confirmed list changes by the reconfirmation
     * rule and becomes present; the reconfirmation status changes only for the current user.
     */
    method UpdateUserReconfirmationStatus(id: string, participant: Participant, status: ReconfirmationStatus)
      requires Valid()
      modifies this
      ensures Valid()
      ensures EditedFirst(old(events), events, id,
                          (e: Event) => e.(confirmedParticipants := Some(ReconfirmedParticipants(e.confirmedParticipants, participant, status)),
                                           userReconfirmationStatus := if participant.name == CurrentUser.name then Some(status)
                                                                       else e.userReconfirmationStatus))
    {
      var found := FindIndex(events, id);
      if found.Some? {
        var i := found.value;
        var event := events[i];
        var newConfirmed := ReconfirmedParticipants(event.confirmedParticipants, participant, status);
        var updated := event.(confirmedParticipants := Some(newConfirmed));
        if participant.name == CurrentUser.name {
          updated := updated.(userReconfirmationStatus := Some(status));
        }
        events := events[i := updated];
      }
    }

    /**
     * `setEventFinalLocation`: status becomes "results out", the final location and the
     * voted locations are stored, and the confirmed list restarts from the participants.
     * The all-vetoed flag is left as it was.
     */
    method SetEventFinalLocation(id: string, location: Location, allLocationsWithVotes: seq<Location>)
      requires Valid()
      modifies this
      ensures Valid()
      ensures EditedFirst(old(events), events, id,
                          (e: Event) => e.(status := ResultsReady, finalLocation := Some(location),
                                           recommendedLocations := Some(allLocationsWithVotes),
                                           confirmedParticipants := Some(e.participants)))
    {
      var found := FindIndex(events, id);
      if found.Some? {
        var i := found.value;
        events := events[i := events[i].(status := ResultsReady, finalLocation := Some(location),
                                         recommendedLocations := Some(allLocationsWithVotes),
                                         confirmedParticipants := Some(events[i].participants))];
      }
    }

    /**
     * `setEventManualFinalLocation`: as above but for the initiator's manual choice; the
     * all-vetoed flag is cleared and the candidate locations are left as they were.
     */
    method SetEventManualFinalLocation(id: string, location: Location)
      requires Valid()
      modifies this
      ensures Valid()
      ensures EditedFirst(old(events), events, id,
                          (e: Event) => e.(status := ResultsReady, finalLocation := Some(location),
                                           allVetoed := Some(false),
                                           confirmedParticipants := Some(e.participants)))
    {
      var found := FindIndex(events, id);
      if found.Some? {
        var i := found.value;
        events := events[i := events[i].(status := ResultsReady, finalLocation := Some(location),
                                         allVetoed := Some(false),
                                         confirmedParticipants := Some(events[i].participants))];
      }
    }

    /** `updateEventLocations`: only the candidate locations change. */
    method UpdateEventLocations(id: string, updatedLocations: seq<Location>)
      requires Valid()
      modifies this
      ensures Valid()
      ensures EditedFirst(old(events), events, id, (e: Event) => e.(recommendedLocations := Some(updatedLocations)))
    {
      var found := FindIndex(events, id);
      if found.Some? {
        var i := found.value;
        events := events[i := events[i].(recommendedLocations := Some(updatedLocations))];
      }
    }

    /** `setEventAllVetoed`: only the all-vetoed flag and the candidate locations change; the status does not. */
    method SetEventAllVetoed(id: string, isVetoed: bool, allLocationsWithVetoes: seq<Location>)
      requires Valid()
      modifies this
      ensures Valid()
      ensures EditedFirst(old(events), events, id,
                          (e: Event) => e.(allVetoed := Some(isVetoed), recommendedLocations := Some(allLocationsWithVetoes)))
    {
      var found := FindIndex(events, id);
      if found.Some? {
        var i := found.value;
        events := events[i := events[i].(allVetoed := Some(isVetoed), recommendedLocations := Some(allLocationsWithVetoes))];
      }
    }
  }

  // ---------------------------------------------------------------------------------
  // Seed data

  const Placeholder: string := "/placeholder.svg?height=32&width=32"

  function Person(name: string): Participant {
    Participant(Placeholder, name)
  }

  /** The eight demonstration events the table starts with. */
  function SeedEvents(): seq<Event> {
    [ Event(id := "1", name := "周末剧本杀碰头", date := "2025-08-10 19:00", status := Voting,
            description := "一起玩剧本杀，地点待定，大家投票决定！", budgetRange := "¥100-200",
            participants := [Person("张三"), Person("李四"), Person("王五"), Person("赵六"), Person("钱七"), CurrentUser],
            recommendedLocations := Some([
              Location("loc1", "剧本杀A馆", "上海市徐汇区天钥桥路1号", votes := Some(3)),
              Location("loc2", "剧本杀B馆", "上海市黄浦区南京东路2号", votes := Some(5)),
              Location("loc3", "剧本杀C馆", "上海市静安区愚园路3号", votes := Some(2))]),
            rsvpDeadline := Some("2025-08-09 18:00"), initiatorName := "张三"),
      Event(id := "2", name := "公司团建烧烤", date := "2025-08-15 18:30", status := AwaitingResponse,
            description := "部门团建烧烤，请大家尽快响应是否参加。", budgetRange := "¥200-300",
            participants := [Person("孙八"), Person("周九")],
            rsvpDeadline := Some("2025-08-14 12:00"), userRsvpStatus := None, initiatorName := "孙八"),
      Event(id := "3", name := "老同学聚餐", date := "2025-07-20 12:00", status := ResultsReady,
            description := "毕业十年聚餐，地点已定，期待相聚！", budgetRange := "¥150-250",
            participants := [Person("吴十"), Person("郑一"), Person("冯二")],
            finalLocation := Some(Location("loc4", "小南国（陆家嘴店）", "上海市浦东新区陆家嘴环路1000号")),
            rsvpDeadline := Some("2025-07-19 10:00"), initiatorName := "吴十",
            recommendedLocations := Some([
              Location("loc4", "小南国（陆家嘴店）", "上海市浦东新区陆家嘴环路1000号", votes := Some(7)),
              Location("loc_old_2", "老盛昌", "上海市黄浦区", votes := Some(2))]),
            confirmedParticipants := Some([Person("吴十"), Person("郑一")])),
      Event(id := "4", name := "部门下午茶", date := "2025-07-18 15:00", status := Ended,
            description := "轻松一下，聊聊最近的工作和生活。", budgetRange := "¥50-100",
            participants := [Person("陈三"), Person("褚四")],
            finalLocation := Some(Location("loc5", "星巴克（静安寺店）", "上海市静安区南京西路1700号")),
            rsvpDeadline := Some("2025-07-17 14:00"), initiatorName := "陈三",
            recommendedLocations := Some([
              Location("loc5", "星巴克（静安寺店）", "上海市静安区南京西路1700号", votes := Some(4)),
              Location("loc_old_3", "瑞幸咖啡", "上海市静安区", votes := Some(1))])),
      Event(id := "5", name := "生日派对", date := "2025-06-05 20:00", status := Ended,
            description := "庆祝小明的生日，欢迎大家来玩！", budgetRange := "¥300+",
            participants := [Person("卫五"), Person("蒋六"), Person("沈七"), Person("韩八"), Person("杨九"), Person("朱十")],
            finalLocation := Some(Location("loc6", "KTV（人民广场店）", "上海市黄浦区人民大道1号")),
            rsvpDeadline := Some("2025-06-04 18:00"), initiatorName := "卫五",
            recommendedLocations := Some([
              Location("loc6", "KTV（人民广场店）", "上海市黄浦区人民大道1号", votes := Some(10)),
              Location("loc_old_4", "酒吧A", "上海市黄浦区", votes := Some(3))])),
      Event(id := "6", name := "所有地点都被否决的聚会", date := "2025-09-01 14:00", status := AllOptionsVetoed,
            description := "一个测试所有地点都被否决的场景。", budgetRange := "¥50-100",
            participants := [Person("测试用户A"), Person("测试用户B")],
            recommendedLocations := Some([
              Location("loc7", "咖啡馆X", "测试地址1", vetoedBy := Some(["测试用户A"]), votes := Some(0)),
              Location("loc8", "茶馆Y", "测试地址2", vetoedBy := Some(["测试用户B"]), votes := Some(0))]),
            allVetoed := Some(true), rsvpDeadline := Some("2025-08-30 23:59"), initiatorName := "测试用户A"),
      Event(id := "7", name := "测试：地点全部否决 (自己发起)", date := "2025-08-20 10:00", status := AllOptionsVetoed,
            description := "这是一个测试所有地点都被否决的活动，由当前用户发起。", budgetRange := "不限",
            participants := [CurrentUser, Person("测试否决者A"), Person("测试否决者B")],
            recommendedLocations := Some([
              Location("loc9", "测试地点X", "测试地址X", vetoedBy := Some([CurrentUser.name, "测试否决者A"]), votes := Some(0)),
              Location("loc10", "测试地点Y", "测试地址Y", vetoedBy := Some([CurrentUser.name, "测试否决者B"]), votes := Some(0))]),
            allVetoed := Some(true), rsvpDeadline := Some("2025-08-19 23:59"), initiatorName := CurrentUser.name),
      Event(id := "8", name := "测试：确认参与人员 (自己发起)", date := "2025-08-25 14:00", status := ResultsReady,
            description := "这是一个测试最终地点已确定，需要发起人确认参与人员的活动。", budgetRange := "¥100-200",
            participants := [CurrentUser, Person("参与者甲"), Person("参与者乙"), Person("参与者丙")],
            finalLocation := Some(Location("loc11", "最终咖啡馆", "上海市某区某路123号")),
            rsvpDeadline := Some("2025-08-24 12:00"), initiatorName := CurrentUser.name,
            recommendedLocations := Some([
              Location("loc11", "最终咖啡馆", "上海市某区某路123号", votes := Some(5)),
              Location("loc12", "备选茶馆", "上海市某区某路456号", votes := Some(2))]),
            confirmedParticipants := Some([]), userReconfirmationStatus := None,
            reconfirmationDeadline := Some("2025-08-24 18:00")) ]
  }

  /** The seed events are numbered "1" to "8" in order. */
  lemma SeedIsPositional()
    ensures PositionalIds(SeedEvents())
  {
    var s := SeedEvents();
    forall k | 0 <= k < |s| ensures s[k].id == Text.Decimal(k + 1) {
      assert Text.Decimal(k + 1) == [Text.DigitChar(k + 1)];
    }
  }
}
