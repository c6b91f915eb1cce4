/**
 The overlay's top level: a reducer over the open panel, its payload, the
 notification list and the commands posted to the host. Host messages, the
 Escape key, notification dismissals and the panels' requests are its inputs;
 every POST to the host becomes one entry appended to the outbox.
 */
module HazardZone {
  import opened Basics
  import RaidJoin
  import SkillManager

  /** The panels the overlay can show. */
  datatype Panel = RaidJoinPanel | RankingPanel | SkillManagerPanel | ResultPanel

  /** A toast; `kind` is the type string stored with it. */
  datatype Notification = Notification(id: string, message: string, kind: string, duration: int)

  /** A message from the host: its `type` tag, an optional payload, an optional text. */
  datatype HostMessage<D> = HostMessage(tag: string, data: Option<D>, message: Option<string>)

  /** A POST to the host. */
  datatype Command =
    | CloseUI
    | JoinRaid(role: Option<RaidJoin.Role>, weaponPack: Option<string>)
    | AllocateSkillPoints(skillName: string, points: int)
    | ResetSkills
    | ChangeSpecialJob(jobName: string)

  /** The overlay's state; `D` is the type of the panels' payloads, which the reducer never inspects. */
  datatype State<D> = State(
    currentUI: Option<Panel>,
    uiData: Option<D>,
    notifications: seq<Notification>,
    outbox: seq<Command>)

  const NotificationDuration: int := 3000

  /** The panel a host message tag opens, if it is one of the four `show*` tags. */
  function PanelFor(tag: string): (p: Option<Panel>)
    ensures p.Some? <==> tag in {"showRaidJoin", "showRanking", "showSkillManager", "showResult"}
    ensures tag == "showRaidJoin" ==> p == Some(RaidJoinPanel)
    ensures tag == "showRanking" ==> p == Some(RankingPanel)
    ensures tag == "showSkillManager" ==> p == Some(SkillManagerPanel)
    ensures tag == "showResult" ==> p == Some(ResultPanel)
  {
    if tag == "showRaidJoin" then Some(RaidJoinPanel)
    else if tag == "showRanking" then Some(RankingPanel)
    else if tag == "showSkillManager" then Some(SkillManagerPanel)
    else if tag == "showResult" then Some(ResultPanel)
    else None
  }

  /** The tags the message handler acts on; every other tag is ignored. */
  predicate KnownTag(tag: string) {
    PanelFor(tag).Some? || tag == "showNotification" || tag == "hideUI"
  }

  /** `closeUI`: no panel, no payload, and a `closeUI` POST. */
  function CloseUi<D>(s: State<D>): (s': State<D>)
    ensures s'.currentUI.None? && s'.uiData.None?
    ensures s'.notifications == s.notifications
    ensures s'.outbox == s.outbox + [CloseUI]
  {
    State(None, None, s.notifications, s.outbox + [CloseUI])
  }

  /** `showNotification`: appends one toast lasting 3000 ms; `id` stands for the clock reading. */
  function ShowNotification<D>(s: State<D>, message: string, kind: string, id: string): (s': State<D>)
    ensures |s'.notifications| == |s.notifications| + 1
    ensures s'.notifications[..|s.notifications|] == s.notifications
    ensures s'.notifications[|s.notifications|] == Notification(id, message, kind, NotificationDuration)
    ensures s' == s.(notifications := s'.notifications)
  {
    s.(notifications := s.notifications + [Notification(id, message, kind, NotificationDuration)])
  }

  /** `removeNotification`: drops every toast carrying `id`, keeping the others in order. */
  function RemoveNotification<D>(s: State<D>, id: string): (s': State<D>)
    ensures forall i :: 0 <= i < |s'.notifications| ==> s'.notifications[i].id != id
    ensures s' == s.(notifications := s'.notifications)
  {
    s.(notifications := Filter(s.notifications, (n: Notification) => n.id != id))
  }

  /** Dismissing removes exactly the toasts with that id; every other toast stays as often as before. */
  lemma RemoveNotificationExact<D>(s: State<D>, id: string, n: Notification)
    ensures n.id == id ==> Count(RemoveNotification(s, id).notifications, n) == 0
    ensures n.id != id ==> Count(RemoveNotification(s, id).notifications, n) == Count(s.notifications, n)
  {
    FilterCount(s.notifications, (x: Notification) => x.id != id, n);
  }

  /** Dismissing keeps the survivors' order: dismissing from a concatenation dismisses from each part. */
  lemma RemoveNotificationOrder<D>(s: State<D>, front: seq<Notification>, back: seq<Notification>, id: string)
    requires s.notifications == front + back
    ensures RemoveNotification(s, id).notifications
      == RemoveNotification(s.(notifications := front), id).notifications + RemoveNotification(s.(notifications := back), id).notifications
  {
    FilterAppend(front, back, (n: Notification) => n.id != id);
  }

  /** Dismissing an id no toast carries (one already expired or dismissed) changes nothing. */
  lemma RemoveAbsentIsNoOp<D>(s: State<D>, id: string)
    requires forall i :: 0 <= i < |s.notifications| ==> s.notifications[i].id != id
    ensures RemoveNotification(s, id) == s
  {
    FilterKeepsAll(s.notifications, (n: Notification) => n.id != id);
  }

  /**
   The window message handler: the four `show*` tags open their panel with
   the payload, `showNotification` adds a toast, `hideUI` closes, and any
   other tag is ignored. `clock` is the clock reading that becomes a new toast's id.
   */
  function OnMessage<D>(s: State<D>, msg: HostMessage<D>, clock: string): (s': State<D>)
    ensures PanelFor(msg.tag).Some? ==> s' == s.(currentUI := PanelFor(msg.tag), uiData := msg.data)
    ensures msg.tag == "hideUI" ==> s' == CloseUi(s)
    ensures !KnownTag(msg.tag) ==> s' == s
    ensures msg.tag != "showNotification" ==> s'.notifications == s.notifications
    ensures |s.outbox| <= |s'.outbox| <= |s.outbox| + 1 && s'.outbox[..|s.outbox|] == s.outbox
  {
    var panel := PanelFor(msg.tag);
    if panel.Some? then
      s.(currentUI := panel, uiData := msg.data)
    else if msg.tag == "showNotification" then
      var kind := if msg.tag != "" then msg.tag else "info";
      ShowNotification(s, msg.message.GetOr(""), kind, clock)
    else if msg.tag == "hideUI" then
      CloseUi(s)
    else
      s
  }

  /** A `show*` message opens its panel with the message's payload and touches nothing else. */
  lemma ShowOpensPanel<D>(s: State<D>, msg: HostMessage<D>, clock: string)
    requires PanelFor(msg.tag).Some?
    ensures var s' := OnMessage(s, msg, clock);
      && s'.currentUI == PanelFor(msg.tag)
      && s'.uiData == msg.data
      && s'.notifications == s.notifications
      && s'.outbox == s.outbox
  {
  }

  /**
   A `showNotification` message appends one toast whose type is the tag
   itself, so the "info" fallback never applies; a missing text becomes "".
   */
  lemma NotificationFromMessage<D>(s: State<D>, msg: HostMessage<D>, clock: string)
    requires msg.tag == "showNotification"
    ensures var s' := OnMessage(s, msg, clock);
      && s'.notifications == s.notifications + [Notification(clock, msg.message.GetOr(""), "showNotification", NotificationDuration)]
      && s'.notifications[|s.notifications|].kind != "info"
      && s'.currentUI == s.currentUI && s'.uiData == s.uiData && s'.outbox == s.outbox
  {
  }

  /** A message with a tag the handler does not know leaves the whole state as it was. */
  lemma UnknownTagIgnored<D>(s: State<D>, msg: HostMessage<D>, clock: string)
    requires !KnownTag(msg.tag)
    ensures OnMessage(s, msg, clock) == s
  {
  }

  /** Inputs to the overlay. */
  datatype Event<D> =
    | Message(msg: HostMessage<D>, clock: string)
    | KeyDown(key: string)
    | Dismiss(id: string)
    | FromRaidJoin(joinRequest: RaidJoin.Request)
    | FromSkillManager(skillRequest: SkillManager.Request, confirmed: bool)
    | PanelClosed

  /** `handleJoinRaid`: posts only the role and pack (mode and team name are dropped), then closes. */
  function HandleJoinRaid<D>(s: State<D>, join: RaidJoin.JoinRequest): (s': State<D>)
    ensures s'.outbox == s.outbox + [JoinRaid(join.role, join.weaponPack), CloseUI]
    ensures s'.currentUI.None? && s'.uiData.None? && s'.notifications == s.notifications
  {
    CloseUi(s.(outbox := s.outbox + [JoinRaid(join.role, join.weaponPack)]))
  }

  /** `handleResetSkills`: posts the reset only when the player confirmed it. */
  function HandleResetSkills<D>(s: State<D>, confirmed: bool): (s': State<D>)
    ensures confirmed ==> s' == s.(outbox := s.outbox + [ResetSkills])
    ensures !confirmed ==> s' == s
  {
    if confirmed then s.(outbox := s.outbox + [ResetSkills]) else s
  }

  /**
   A request from the skill panel: allocation and job change are forwarded
   unchanged, a reset is forwarded only when confirmed, and close closes. Only
   the close request changes the open panel; none touches the toasts.
   */
  function OnSkillRequest<D>(s: State<D>, r: SkillManager.Request, confirmed: bool): (s': State<D>)
    ensures r.AllocateSkill? ==> s'.outbox == s.outbox + [AllocateSkillPoints(r.skillName, r.points)]
    ensures r.ChangeJob? ==> s'.outbox == s.outbox + [ChangeSpecialJob(r.jobName)]
    ensures r.ResetSkills? ==> s'.outbox == s.outbox + (if confirmed then [ResetSkills] else [])
    ensures r.Close? ==> s' == CloseUi(s)
    ensures !r.Close? ==> s'.currentUI == s.currentUI && s'.uiData == s.uiData
    ensures s'.notifications == s.notifications
  {
    match r
    case AllocateSkill(name, points) => s.(outbox := s.outbox + [AllocateSkillPoints(name, points)])
    case ResetSkills => HandleResetSkills(s, confirmed)
    case ChangeJob(name) => s.(outbox := s.outbox + [ChangeSpecialJob(name)])
    case Close => CloseUi(s)
  }

  /**
   The overlay's reducer. Each input posts at most two commands, and a panel
   is opened only by a host message: any other input either keeps the open
   panel or closes it. A dismissal removes every toast with that id, and the
   wizard's close and launch and the skill panel's close all close the overlay.
   */
  function Step<D>(s: State<D>, e: Event<D>): (s': State<D>)
    ensures |s.outbox| <= |s'.outbox| <= |s.outbox| + 2
    ensures !e.Message? ==> s'.currentUI == s.currentUI || s'.currentUI.None?
    ensures e.KeyDown? ==> s' == if e.key == "Escape" then CloseUi(s) else s
    ensures e == PanelClosed ==> s' == CloseUi(s)
    ensures e.Message? ==> s' == OnMessage(s, e.msg, e.clock)
    ensures e.Dismiss? ==> s' == RemoveNotification(s, e.id)
    ensures e.Dismiss? ==> forall i :: 0 <= i < |s'.notifications| ==> s'.notifications[i].id != e.id
    ensures e.FromRaidJoin? ==>
      s' == if e.joinRequest.Launch? then HandleJoinRaid(s, e.joinRequest.join) else CloseUi(s)
    ensures e.FromRaidJoin? || e == PanelClosed ==> s'.currentUI.None? && s'.uiData.None?
    ensures e.FromSkillManager? ==> s' == OnSkillRequest(s, e.skillRequest, e.confirmed)
    ensures e.FromSkillManager? && e.skillRequest.Close? ==> s' == CloseUi(s)
  {
    match e
    case Message(msg, clock) => OnMessage(s, msg, clock)
    case KeyDown(key) => if key == "Escape" then CloseUi(s) else s
    case Dismiss(id) => RemoveNotification(s, id)
    case FromRaidJoin(r) =>
      (match r
       case Launch(join) => HandleJoinRaid(s, join)
       case Close => CloseUi(s))
    case FromSkillManager(r, confirmed) => OnSkillRequest(s, r, confirmed)
    case PanelClosed => CloseUi(s)
  }

  /** `hideUI` from the host and the Escape key have the same effect: close and post `closeUI`. */
  lemma HideAndEscapeClose<D>(s: State<D>, data: Option<D>, text: Option<string>, clock: string)
    ensures Step(s, Message(HostMessage("hideUI", data, text), clock)) == CloseUi(s)
    ensures Step(s, KeyDown("Escape")) == CloseUi(s)
    ensures CloseUi(s).currentUI.None? && CloseUi(s).uiData.None?
    ensures CloseUi(s).outbox == s.outbox + [CloseUI]
  {
  }

  /** Any other key leaves the state unchanged. */
  lemma OtherKeysIgnored<D>(s: State<D>, key: string)
    requires key != "Escape"
    ensures Step(s, KeyDown(key)) == s
  {
  }

  /** The skill panel's allocate and change-job requests reach the host with their arguments unchanged. */
  lemma SkillRequestsForwarded<D>(s: State<D>, r: SkillManager.Request, confirmed: bool)
    ensures r.AllocateSkill? ==>
      Step(s, FromSkillManager(r, confirmed)).outbox == s.outbox + [AllocateSkillPoints(r.skillName, r.points)]
    ensures r.ChangeJob? ==>
      Step(s, FromSkillManager(r, confirmed)).outbox == s.outbox + [ChangeSpecialJob(r.jobName)]
    ensures r.ResetSkills? ==>
      (ResetSkills in Step(s, FromSkillManager(r, confirmed)).outbox[|s.outbox|..] <==> confirmed)
  {
    if r.ResetSkills? && !confirmed {
      assert Step(s, FromSkillManager(r, confirmed)).outbox[|s.outbox|..] == [];
    }
  }

  /**
   A launch from the raid-join wizard posts `joinRaid` carrying only the
   role and pack, then `closeUI`; the game mode and team name never reach the host.
   */
  lemma LaunchDropsModeAndTeam<D>(s: State<D>, w: RaidJoin.Wizard)
    ensures var s' := Step(s, FromRaidJoin(RaidJoin.Launch(RaidJoin.StartRequest(w))));
      var join := RaidJoin.StartRequest(w);
      && s'.outbox == s.outbox + [JoinRaid(join.role, join.weaponPack), CloseUI]
      && s'.currentUI.None?
  {
  }

  /**
   Each step only appends to the outbox, and changes the notification list
   only for a toast message or a dismissal.
   */
  lemma StepAppendsOnly<D>(s: State<D>, e: Event<D>)
    ensures |Step(s, e).outbox| >= |s.outbox|
    ensures Step(s, e).outbox[..|s.outbox|] == s.outbox
    ensures !(e.Dismiss? || (e.Message? && e.msg.tag == "showNotification")) ==>
      Step(s, e).notifications == s.notifications
  {
  }

  /** The state after a sequence of inputs. */
  function Run<D>(s: State<D>, es: seq<Event<D>>): State<D>
    decreases |es|
  {
    if |es| == 0 then s else Run(Step(s, es[0]), es[1..])
  }

  /** Over any sequence of inputs, commands once posted stay posted, in order. */
  lemma {:induction false} RunAppendsOnly<D>(s: State<D>, es: seq<Event<D>>)
    ensures |Run(s, es).outbox| >= |s.outbox|
    ensures Run(s, es).outbox[..|s.outbox|] == s.outbox
    decreases |es|
  {
    if |es| != 0 {
      var s1 := Step(s, es[0]);
      StepAppendsOnly(s, es[0]);
      RunAppendsOnly(s1, es[1..]);
      assert Run(s, es).outbox[..|s.outbox|] == Run(s1, es[1..]).outbox[..|s1.outbox|][..|s.outbox|];
    }
  }
}
