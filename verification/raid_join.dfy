/**
 The raid-join wizard: a four-step screen (role, game mode, team setup,
 waiting room) with a local, placeholder team roster. The wizard's state is
 one record; every control on the screen is an input, gated by whether the
 control is shown and enabled, and a press either changes the record or hands
 a request (launch or close) to the enclosing overlay.
 */
module RaidJoin {
  import opened Basics
  import opened Text

  datatype Step = RoleStep | GameModeStep | TeamSetupStep | WaitingStep

  datatype Role = Scav | Pmc

  /** The game modes offered by the mode cards. */
  datatype Mode = Solo | CreateTeam | JoinTeam

  datatype Member = Member(id: string, name: string, role: Role, isReady: bool, isLeader: bool)

  /**
   The wizard's state: the current step, the choices made so far (each absent
   until made), the typed team name, the local ready flag and the roster.
   */
  datatype Wizard = Wizard(
    step: Step,
    role: Option<Role>,
    weaponPack: Option<string>,
    mode: Option<Mode>,
    teamName: string,
    isReady: bool,
    members: seq<Member>)

  /** The id the screen takes to be the current player's. */
  const SelfId: string := "1"

  /** The team-name input accepts at most this many characters. */
  const TeamNameMaxLength: nat := 20

  const HostMember: Member := Member("1", "プレイヤー1", Scav, false, true)
  const GuestMember: Member := Member("2", "プレイヤー2", Pmc, true, false)
  const InitialRoster: seq<Member> := [HostMember, GuestMember]

  const Initial: Wizard := Wizard(RoleStep, None, None, None, "", false, InitialRoster)

  /** Choosing a role: any role but SCAV clears the chosen weapon pack, SCAV keeps it. */
  function SelectRole(w: Wizard, r: Role): (w': Wizard)
    ensures w'.role == Some(r)
    ensures w'.weaponPack == if r == Scav then w.weaponPack else None
    ensures w' == w.(role := Some(r), weaponPack := w'.weaponPack)
  {
    var chosen := w.(role := Some(r));
    if r != Scav then chosen.(weaponPack := None) else chosen
  }

  /**
   The "next" button on the role step: a role is chosen and, for SCAV, a
   non-empty pack key too; that is, exactly when a SCAV launch from here
   would carry a pack.
   */
  function CanProceedFromRole(w: Wizard): (ok: bool)
    ensures ok <==> w.role.Some? && (w.role.value == Scav ==> StartRequest(w).weaponPack.Some?)
  {
    && w.role.Some?
    && (w.role.value != Scav || (w.weaponPack.Some? && w.weaponPack.value != ""))
  }

  /** Choosing a mode: creating a team goes to team setup, every other mode straight to the waiting room. */
  function SelectGameMode(w: Wizard, m: Mode): (w': Wizard)
    ensures w'.mode == Some(m)
    ensures w'.step == TeamSetupStep <==> m == CreateTeam
    ensures w'.step != TeamSetupStep ==> w'.step == WaitingStep
    ensures w' == w.(mode := Some(m), step := w'.step)
  {
    var chosen := w.(mode := Some(m));
    if m == Solo then chosen.(step := WaitingStep)
    else if m == CreateTeam then chosen.(step := TeamSetupStep)
    else chosen.(step := WaitingStep)
  }

  /**
   The team-name input: `text` is the value the input hands over, and a longer
   one is cut to its first 20 characters.
   */
  function EditTeamName(w: Wizard, text: string): (w': Wizard)
    ensures |w'.teamName| <= TeamNameMaxLength && |w'.teamName| <= |text|
    ensures w'.teamName == text[..|w'.teamName|]
    ensures |text| <= TeamNameMaxLength ==> w'.teamName == text
    ensures w' == w.(teamName := w'.teamName)
  {
    var kept := if |text| <= TeamNameMaxLength then |text| else TeamNameMaxLength;
    w.(teamName := text[..kept])
  }

  /** `teamName.trim().length > 0`: the name has a character outside JavaScript's whitespace. */
  function CanCreateTeam(w: Wizard): (ok: bool)
    ensures ok <==> HasVisibleChar(w.teamName)
  {
    TrimNonEmptyIff(w.teamName);
    |Trim(w.teamName)| > 0
  }

  /**
   Creating the team: moves to the waiting room when the name has a
   non-whitespace character, and otherwise leaves the state as it was.
   */
  function CreateTeamPressed(w: Wizard): (w': Wizard)
    ensures HasVisibleChar(w.teamName) ==> w' == w.(step := WaitingStep)
    ensures !HasVisibleChar(w.teamName) ==> w' == w
  {
    if !CanCreateTeam(w) then w else w.(step := WaitingStep)
  }

  /** Removing a player: keeps, in order, every member whose id differs from `id`. */
  function Kick(w: Wizard, id: string): (w': Wizard)
    ensures forall i :: 0 <= i < |w'.members| ==> w'.members[i].id != id
    ensures w' == w.(members := w'.members)
  {
    w.(members := Filter(w.members, (m: Member) => m.id != id))
  }

  /** Kicking `id` removes every member with that id and keeps every other one as often as before. */
  lemma KickRemovesExactly(w: Wizard, id: string, m: Member)
    ensures m.id == id ==> Count(Kick(w, id).members, m) == 0
    ensures m.id != id ==> Count(Kick(w, id).members, m) == Count(w.members, m)
  {
    FilterCount(w.members, (x: Member) => x.id != id, m);
  }

  /** Kicking preserves order: kicking from a concatenation kicks from each part. */
  lemma KickPreservesOrder(front: seq<Member>, back: seq<Member>, w: Wizard, id: string)
    requires w.members == front + back
    ensures Kick(w, id).members == Kick(w.(members := front), id).members + Kick(w.(members := back), id).members
  {
    FilterAppend(front, back, (m: Member) => m.id != id);
  }

  /** Kicking an id nobody has leaves the roster unchanged. */
  lemma KickAbsentIsNoOp(w: Wizard, id: string)
    requires forall i :: 0 <= i < |w.members| ==> w.members[i].id != id
    ensures Kick(w, id) == w
  {
    FilterKeepsAll(w.members, (m: Member) => m.id != id);
  }

  /** The local ready button: flips the player's own flag and nothing else. */
  function ToggleReady(w: Wizard): (w': Wizard)
    ensures w'.isReady != w.isReady
    ensures w' == w.(isReady := w'.isReady)
  {
    w.(isReady := !w.isReady)
  }

  /** Toggling twice restores the flag; the roster, and so `allReady`, never sees the toggle. */
  lemma ToggleReadyFacts(w: Wizard)
    ensures ToggleReady(ToggleReady(w)) == w
    ensures ToggleReady(w).members == w.members
    ensures AllReady(ToggleReady(w)) == AllReady(w)
    ensures IsLeader(ToggleReady(w)) == IsLeader(w)
  {
  }

  /** The position of the first member flagged as leader (`members.find(m => m.isLeader)`). */
  function LeaderIndex(ms: seq<Member>): (r: Option<nat>)
    ensures r.Some? ==> r.value < |ms| && ms[r.value].isLeader
    ensures r.Some? ==> forall j :: 0 <= j < r.value ==> !ms[j].isLeader
    ensures r.None? <==> forall i :: 0 <= i < |ms| ==> !ms[i].isLeader
    decreases |ms|
  {
    if |ms| == 0 then None
    else if ms[0].isLeader then Some(0)
    else match LeaderIndex(ms[1..])
      case None => None
      case Some(k) => Some(k + 1)
  }

  /** The current player leads: the first leader on the roster has id "1". */
  function IsLeader(w: Wizard): (ok: bool)
    ensures ok <==> exists i :: (
      && 0 <= i < |w.members|
      && w.members[i].isLeader
      && w.members[i].id == SelfId
      && forall j :: 0 <= j < i ==> !w.members[j].isLeader)
  {
    match LeaderIndex(w.members)
    case None => false
    case Some(i) => w.members[i].id == SelfId
  }

  /** `members.every(m => m.isReady || m.isLeader)`. */
  function AllReady(w: Wizard): (ok: bool)
    ensures ok <==> forall i :: 0 <= i < |w.members| ==> w.members[i].isReady || w.members[i].isLeader
  {
    EveryReadyOrLeader(w.members)
  }

  /** Walks the roster and stops at the first member who is neither ready nor a leader. */
  function EveryReadyOrLeader(ms: seq<Member>): (ok: bool)
    ensures ok <==> forall i :: 0 <= i < |ms| ==> ms[i].isReady || ms[i].isLeader
    decreases |ms|
  {
    if |ms| == 0 then true
    else if !ms[0].isReady && !ms[0].isLeader then false
    else EveryReadyOrLeader(ms[1..])
  }

  /** What the start button hands to the overlay. */
  datatype JoinRequest = JoinRequest(role: Option<Role>, weaponPack: Option<string>, mode: Option<Mode>, teamName: Option<string>)

  /** The start button's payload: an absent or empty pack, and an empty team name, become undefined. */
  function StartRequest(w: Wizard): (req: JoinRequest)
    ensures req.role == w.role && req.mode == w.mode
    ensures req.weaponPack.Some? <==> w.weaponPack.Some? && w.weaponPack.value != ""
    ensures req.weaponPack.Some? ==> req.weaponPack == w.weaponPack
    ensures req.teamName.Some? <==> w.teamName != ""
    ensures req.teamName.Some? ==> req.teamName.value == w.teamName
  {
    JoinRequest(
      w.role,
      if w.weaponPack.Some? && w.weaponPack.value != "" then w.weaponPack else None,
      w.mode,
      if w.teamName == "" then None else Some(w.teamName))
  }

  /** The controls of the screen. */
  datatype Control =
    | CloseButton
    | RoleCard(role: Role)
    | PackCard(key: string)
    | NextButton
    | ModeCard(mode: Mode)
    | BackToRoleButton
    | TeamNameInput(text: string)
    | BackToModeButton
    | CreateTeamButton
    | KickButton(id: string)
    | StartButton
    | ReadyButton

  /** The member rows that carry a kick button: only the leader sees them, and never on a leader's row. */
  function KickOffered(w: Wizard, id: string): (ok: bool)
    ensures ok <==> IsLeader(w) && exists i :: 0 <= i < |w.members| && w.members[i].id == id && !w.members[i].isLeader
    ensures !IsLeader(w) ==> !ok
  {
    && IsLeader(w)
    && exists i :: 0 <= i < |w.members| && w.members[i].id == id && !w.members[i].isLeader
  }

  /** `gameMode !== 'solo'`: the roster, kick and ready controls belong to team play; no mode yet counts as team play. */
  function TeamMode(w: Wizard): (ok: bool)
    ensures ok <==> !(w.mode.Some? && w.mode.value == Solo)
    ensures w.mode.None? ==> ok
  {
    w.mode != Some(Solo)
  }

  /** The step whose screen shows a control; the close button is on every screen. */
  function ScreenOf(c: Control): Option<Step> {
    match c
    case CloseButton => None
    case RoleCard(_) => Some(RoleStep)
    case PackCard(_) => Some(RoleStep)
    case NextButton => Some(RoleStep)
    case ModeCard(_) => Some(GameModeStep)
    case BackToRoleButton => Some(GameModeStep)
    case TeamNameInput(_) => Some(TeamSetupStep)
    case BackToModeButton => Some(TeamSetupStep)
    case CreateTeamButton => Some(TeamSetupStep)
    case KickButton(_) => Some(WaitingStep)
    case StartButton => Some(WaitingStep)
    case ReadyButton => Some(WaitingStep)
  }

  /**
   Whether a control is on screen and enabled in state `w`; `packKeys` are
   the weapon packs the host offered. The close button is always enabled.
   */
  function Enabled(w: Wizard, packKeys: set<string>, c: Control): (ok: bool)
    ensures ScreenOf(c).None? ==> ok
  {
    match c
    case CloseButton => true
    case RoleCard(_) => w.step == RoleStep
    case PackCard(key) => w.step == RoleStep && w.role == Some(Scav) && key in packKeys
    case NextButton => w.step == RoleStep && CanProceedFromRole(w)
    case ModeCard(_) => w.step == GameModeStep
    case BackToRoleButton => w.step == GameModeStep
    case TeamNameInput(_) => w.step == TeamSetupStep
    case BackToModeButton => w.step == TeamSetupStep
    case CreateTeamButton => w.step == TeamSetupStep && CanCreateTeam(w)
    case KickButton(id) => w.step == WaitingStep && TeamMode(w) && KickOffered(w, id)
    case StartButton => w.step == WaitingStep && (!TeamMode(w) || (IsLeader(w) && AllReady(w)))
    case ReadyButton => w.step == WaitingStep && TeamMode(w) && !IsLeader(w)
  }

  /**
   A control is only ever enabled on its own step's screen, and the team-only
   controls (kick and ready) never are in a solo game.
   */
  lemma EnabledOnItsScreen(w: Wizard, packKeys: set<string>, c: Control)
    ensures Enabled(w, packKeys, c) && ScreenOf(c).Some? ==> ScreenOf(c) == Some(w.step)
    ensures (c.KickButton? || c == ReadyButton) && w.mode == Some(Solo) ==> !Enabled(w, packKeys, c)
  {
  }

  /** A request the wizard hands to the enclosing overlay. */
  datatype Request = Launch(join: JoinRequest) | Close

  datatype Reaction = Reaction(next: Wizard, request: Option<Request>)

  /**
   Pressing a control: a control that is hidden or disabled does nothing; an
   enabled one moves between steps, records a choice, or hands a request out.
   */
  function Press(w: Wizard, packKeys: set<string>, c: Control): (r: Reaction)
    ensures !Enabled(w, packKeys, c) ==> r == Reaction(w, None)
    ensures Enabled(w, packKeys, c) ==> match c
      case CloseButton => r == Reaction(w, Some(Close))
      case StartButton => r == Reaction(w, Some(Launch(StartRequest(w))))
      case NextButton => r == Reaction(w.(step := GameModeStep), None)
      case BackToRoleButton => r == Reaction(w.(step := RoleStep), None)
      case BackToModeButton => r == Reaction(w.(step := GameModeStep), None)
      case PackCard(key) => r == Reaction(w.(weaponPack := Some(key)), None)
      case RoleCard(role) => r == Reaction(SelectRole(w, role), None)
      case ModeCard(m) => r == Reaction(SelectGameMode(w, m), None)
      case TeamNameInput(text) => r == Reaction(EditTeamName(w, text), None)
      case CreateTeamButton => r == Reaction(CreateTeamPressed(w), None)
      case KickButton(id) => r == Reaction(Kick(w, id), None)
      case ReadyButton => r == Reaction(ToggleReady(w), None)
    ensures r.request.Some? <==> Enabled(w, packKeys, c) && (c == CloseButton || c == StartButton)
    ensures r.request == Some(Close) ==> r.next == w
    ensures r.request.Some? && r.request.value.Launch? ==>
      r.next == w && r.request.value.join == StartRequest(w) && w.step == WaitingStep
  {
    if !Enabled(w, packKeys, c) then Reaction(w, None)
    else match c
      case CloseButton => Reaction(w, Some(Close))
      case RoleCard(role) => Reaction(SelectRole(w, role), None)
      case PackCard(key) => Reaction(w.(weaponPack := Some(key)), None)
      case NextButton => Reaction(w.(step := GameModeStep), None)
      case ModeCard(m) => Reaction(SelectGameMode(w, m), None)
      case BackToRoleButton => Reaction(w.(step := RoleStep), None)
      case TeamNameInput(text) => Reaction(EditTeamName(w, text), None)
      case BackToModeButton => Reaction(w.(step := GameModeStep), None)
      case CreateTeamButton => Reaction(CreateTeamPressed(w), None)
      case KickButton(id) => Reaction(Kick(w, id), None)
      case StartButton => Reaction(w, Some(Launch(StartRequest(w))))
      case ReadyButton => Reaction(ToggleReady(w), None)
  }

  /**
   The role step is left exactly through the "next" button, and only when a
   role is chosen and, for SCAV, a non-empty pack key too.
   */
  lemma LeaveRoleStep(w: Wizard, packKeys: set<string>, c: Control)
    requires w.step == RoleStep
    ensures Press(w, packKeys, c).next.step != RoleStep ==> c == NextButton && CanProceedFromRole(w)
    ensures CanProceedFromRole(w) <==> Press(w, packKeys, NextButton).next.step == GameModeStep
  {
  }

  /** In a team waiting room the start button is enabled exactly for a leader when everyone is ready. */
  lemma StartGate(w: Wizard, packKeys: set<string>)
    requires w.step == WaitingStep && TeamMode(w)
    ensures Enabled(w, packKeys, StartButton) <==> IsLeader(w) && AllReady(w)
    ensures Enabled(w, packKeys, StartButton) ==> forall i :: 0 <= i < |w.members| ==> w.members[i].isReady || w.members[i].isLeader
  {
  }

  /**
   What holds of every state the wizard can reach from its initial state:
   the name fits the input, the roster is the placeholder roster or just its
   leader, a pack is only held under SCAV, every step past the first was
   entered through the "next" gate, and the team steps carry their mode and
   a usable name.
   */
  predicate Valid(w: Wizard) {
    && |w.teamName| <= TeamNameMaxLength
    && (w.members == InitialRoster || w.members == [HostMember])
    && (w.weaponPack.Some? ==> w.role == Some(Scav))
    && (w.step != RoleStep ==> CanProceedFromRole(w))
    && (w.step == TeamSetupStep ==> w.mode == Some(CreateTeam))
    && (w.step == WaitingStep ==> w.mode.Some?)
    && (w.step == WaitingStep && w.mode == Some(CreateTeam) ==> HasVisibleChar(w.teamName))
  }

  lemma InitialValid()
    ensures Valid(Initial)
  {
  }

  /** The host's row is never offered a kick; on the full roster only the guest's id is. */
  lemma KickOfferedOnlyGuest(w: Wizard, id: string)
    requires Valid(w) && KickOffered(w, id)
    ensures w.members == InitialRoster && id == GuestMember.id
  {
    var i :| 0 <= i < |w.members| && w.members[i].id == id && !w.members[i].isLeader;
  }

  /** Kicking the guest from the placeholder roster leaves just the host. */
  lemma KickGuest(w: Wizard)
    requires w.members == InitialRoster
    ensures Kick(w, GuestMember.id).members == [HostMember]
  {
    var keep := (m: Member) => m.id != GuestMember.id;
    assert InitialRoster[1..][1..] == [];
    assert Filter(InitialRoster[1..], keep) == [];
  }

  /** Every press from a valid state leads to a valid state. */
  lemma PressPreservesValid(w: Wizard, packKeys: set<string>, c: Control)
    requires Valid(w)
    ensures Valid(Press(w, packKeys, c).next)
  {
    if Enabled(w, packKeys, c) {
      match c
      case CreateTeamButton =>
        TrimNonEmptyIff(w.teamName);
      case KickButton(id) =>
        KickOfferedOnlyGuest(w, id);
        KickGuest(w);
      case _ =>
    }
  }

  /** The controls pressed in order, from `w`: the final state and the requests handed out. */
  function Run(w: Wizard, packKeys: set<string>, cs: seq<Control>): (r: (Wizard, seq<Request>))
    decreases |cs|
  {
    if |cs| == 0 then (w, [])
    else
      var first := Press(w, packKeys, cs[0]);
      var rest := Run(first.next, packKeys, cs[1..]);
      (rest.0, (if first.request.Some? then [first.request.value] else []) + rest.1)
  }

  /** Every state reachable from the initial state by pressing controls is valid. */
  lemma {:induction false} RunPreservesValid(w: Wizard, packKeys: set<string>, cs: seq<Control>)
    requires Valid(w)
    ensures Valid(Run(w, packKeys, cs).0)
    decreases |cs|
  {
    if |cs| != 0 {
      PressPreservesValid(w, packKeys, cs[0]);
      RunPreservesValid(Press(w, packKeys, cs[0]).next, packKeys, cs[1..]);
    }
  }

  /** In every reachable state the current player is the leader. */
  lemma ValidIsLeader(w: Wizard)
    requires Valid(w)
    ensures IsLeader(w)
  {
    assert w.members[0] == HostMember;
  }

  /** Hence the ready button is never on screen in a reachable state. */
  lemma ReadyButtonNeverShown(w: Wizard, packKeys: set<string>)
    requires Valid(w)
    ensures !Enabled(w, packKeys, ReadyButton)
  {
    ValidIsLeader(w);
  }

  /**
   A launch from a reachable state carries a role and a mode, a pack exactly
   for SCAV, and, when it creates a team, a name with a visible character.
   */
  lemma LaunchWellFormed(w: Wizard, packKeys: set<string>, c: Control)
    requires Valid(w)
    requires Press(w, packKeys, c).request.Some? && Press(w, packKeys, c).request.value.Launch?
    ensures var req := Press(w, packKeys, c).request.value.join;
      && req.role.Some? && req.mode.Some?
      && (req.weaponPack.Some? <==> req.role == Some(Scav))
      && (req.mode == Some(CreateTeam) ==> req.teamName.Some? && HasVisibleChar(req.teamName.value))
  {
  }
}
