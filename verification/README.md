# Hazard Zone overlay: the client's decisions, modelled in Dafny

The overlay is the in-game interface of an extraction-raid game mode. It has
a raid-join wizard, a skill and special-job panel, a post-raid result screen,
a leaderboard and toast notifications, all driven by messages from a host
process. This project models only what the client code itself decides:

- **Raid-join wizard** (`raid_join.dfy`, module `RaidJoin`). The wizard is one
  record: step, role, weapon pack, game mode, team name, local ready flag and
  roster. The role step is followed by the game-mode step, then team setup
  (only when creating a team), then the waiting room. Every control on the
  screen is an input. `Enabled` says whether that control is shown and
  enabled. `Press` applies it, or hands the overlay a launch or close request.
  `Valid` describes every reachable state. It is proved to hold initially and
  to be kept by every press.
- **Skill and job panel** (`skill_manager.dfy`, module `SkillManager`). It
  covers job eligibility over an integer stat map in which a missing stat
  reads as 0. It also covers the requirement rows and captions, the +/−
  gating of each skill, the job shown as current, the change-job offer, and
  the requests the panel's buttons forward. The panel never changes points or
  levels itself.
- **Result screen** (`result_screen.dfy`, module `ResultScreen`). It covers
  the rating score and its five-tier grade, the breakdown lines with their
  separately computed total, and the `m:ss` survival-time display.
- **Top-level reducer** (`hazard_zone.dfy`, module `HazardZone`). The state
  is `{currentUI, uiData, notifications, outbox}`. Host messages, the Escape
  key, toast dismissals and the panels' requests are its inputs. Each POST
  to the host becomes a `Command` appended to the outbox.
- Helpers: `basics.dfy` holds `Option` and an order-preserving `Filter`.
  `text.dfy` holds JavaScript's `trim` whitespace set, integer `toString`,
  `padStart`, `Math.floor(a / b)` and the truncating `%`.

Behaviours that the model keeps exactly as the code has them:

- The ready toggle changes only the player's local flag, never the roster.
  So `allReady` ignores it.
- Leadership means that the first roster entry flagged as leader has id "1".
  The roster starts as a fixed two-member placeholder, and only a non-leader's
  row carries a kick button. So in every reachable state the current player
  leads, and the ready button is never shown (`RaidJoin.ReadyButtonNeverShown`).
- JavaScript truthiness is modelled literally. A weapon-pack key `""` does
  not let the player leave the role step, and a launch sends it as absent.
  An empty team name is also sent as absent. A non-empty team name is sent
  untrimmed, even in join-team mode.
- For a `showNotification` host message, the stored toast type is the
  message tag `"showNotification"` itself. The `'info'` fallback never applies.
- `handleJoinRaid` takes only the role and the pack. The game mode and team
  name that the wizard passes never reach the host.

The client enforces none of the following, and none is modelled:

- A team capacity. The numbers 6 and 4 appear only as display text.
- A kick guard beyond the button being shown. Kicking is a plain filter by id.
- A launch-readiness check for a solo game.
- A skill-point ledger.
- A roster update from the ready toggle.

## Model

| member | source | states |
|---|---|---|
| RaidJoin.SelectRole | src/components/RaidJoinUI.tsx:59-64 | choosing a role records it; any role other than SCAV clears the weapon pack, SCAV keeps it; nothing else changes |
| RaidJoin.SelectGameMode | src/components/RaidJoinUI.tsx:66-75 | the mode is recorded; the next step is team setup exactly for createTeam, the waiting room for every other mode |
| RaidJoin.EditTeamName | src/components/RaidJoinUI.tsx:282-288 | the stored name is a prefix of the typed text, at most 20 characters long, and the whole text when it fits |
| Text.TrimNonEmptyIff | src/components/RaidJoinUI.tsx:95 | `trim()` leaves a non-empty string exactly when the name has a character outside ECMAScript's whitespace and line terminators |
| RaidJoin.CreateTeamPressed | src/components/RaidJoinUI.tsx:77-80 | with a name that has a visible character the wizard moves to the waiting room and nothing else changes; otherwise the state is unchanged |
| RaidJoin.Kick | src/components/RaidJoinUI.tsx:86-88 | no member with the kicked id remains and nothing but the roster changes |
| RaidJoin.KickRemovesExactly | src/components/RaidJoinUI.tsx:87 | every member with the kicked id is gone, and every other member occurs exactly as often as before |
| RaidJoin.KickPreservesOrder | src/components/RaidJoinUI.tsx:87 | kicking from a concatenated roster is kicking from each part, so survivors keep their order |
| RaidJoin.KickAbsentIsNoOp | src/components/RaidJoinUI.tsx:87 | kicking an id no member has leaves the state unchanged |
| RaidJoin.ToggleReady | src/components/RaidJoinUI.tsx:90-92 | the local ready flag flips and nothing else changes |
| RaidJoin.ToggleReadyFacts | src/components/RaidJoinUI.tsx:90-97 | toggling twice restores the state; the roster, `allReady` and `isLeader` are unaffected by the toggle |
| RaidJoin.LeaderIndex | src/components/RaidJoinUI.tsx:96 | finds the first member flagged as leader, or reports that there is none |
| RaidJoin.CanProceedFromRole | src/components/RaidJoinUI.tsx:94 | the role step's "next" gate passes exactly when a role is chosen and, for SCAV, a launch from here would carry a pack |
| RaidJoin.CanCreateTeam | src/components/RaidJoinUI.tsx:95 | the create-team gate passes exactly when the name has a character outside JavaScript's whitespace |
| RaidJoin.IsLeader | src/components/RaidJoinUI.tsx:96 | the player leads exactly when some member flagged as leader, with no leader before it, has id "1" |
| RaidJoin.KickOffered | src/components/RaidJoinUI.tsx:349 | a member's row carries a kick button exactly when the player leads and that member is not a leader; a player who does not lead sees none |
| RaidJoin.TeamMode | src/components/RaidJoinUI.tsx:326 | roster, kick and ready controls belong to every mode except solo, including before a mode is chosen |
| RaidJoin.AllReady | src/components/RaidJoinUI.tsx:97 | the walk over the roster succeeds exactly when every member is ready or a leader |
| RaidJoin.Enabled | src/components/RaidJoinUI.tsx:99-405 | the close button is enabled on every screen |
| RaidJoin.EnabledOnItsScreen | src/components/RaidJoinUI.tsx:119-404 | a control is enabled only on its own step's screen; kick and ready are never enabled in a solo game |
| RaidJoin.LeaveRoleStep | src/components/RaidJoinUI.tsx:94-201 | the role step is left only through "next", and "next" moves on exactly when a role is chosen and, for SCAV, a non-empty pack |
| RaidJoin.StartRequest | src/components/RaidJoinUI.tsx:82-84 | the launch carries role and mode as chosen, the pack only when present and non-empty, the team name only when non-empty |
| RaidJoin.Press | src/components/RaidJoinUI.tsx:99-405 | a hidden or disabled control does nothing; each enabled control performs its handler: "next" and the back buttons move between steps, a pack card records its key, the role and mode cards, the name input, create-team, kick and ready apply their transitions; only close and start produce a request; a launch is raised only in the waiting room and carries the start payload |
| RaidJoin.StartGate | src/components/RaidJoinUI.tsx:385-390 | in a team waiting room the start button is enabled exactly for the leader when every member is ready or a leader |
| RaidJoin.InitialValid | src/components/RaidJoinUI.tsx:48-57 | the initial state (role step, nothing chosen, placeholder roster) satisfies the reachable-state invariant |
| RaidJoin.KickOfferedOnlyGuest | src/components/RaidJoinUI.tsx:349 | in a reachable state a kick is offered only for the placeholder guest, never for the leader's row |
| RaidJoin.KickGuest | src/components/RaidJoinUI.tsx:86-88 | kicking the guest from the placeholder roster leaves just the host |
| RaidJoin.PressPreservesValid | src/components/RaidJoinUI.tsx:59-97 | every press from a reachable state leads to a reachable state: later steps were entered through the next gate, team setup belongs to createTeam, a created team has a usable name |
| RaidJoin.RunPreservesValid | src/components/RaidJoinUI.tsx:48-97 | any sequence of presses from a valid state ends in a valid state |
| RaidJoin.ValidIsLeader | src/components/RaidJoinUI.tsx:96 | in every reachable state the current player (id "1") is the leader |
| RaidJoin.ReadyButtonNeverShown | src/components/RaidJoinUI.tsx:395-404 | the non-leader ready button is never on screen in a reachable state |
| RaidJoin.LaunchWellFormed | src/components/RaidJoinUI.tsx:82-84 | a launch from a reachable state has a role and a mode, a pack exactly for SCAV, and for createTeam a name with a visible character |
| SkillManager.StatValue | src/components/SkillManagerUI.tsx:65 | a stat the host did not send reads as 0, a sent one as its value |
| SkillManager.SkillLevel | src/components/SkillManagerUI.tsx:163 | a skill the host did not send is at level 0, a sent one at its value |
| SkillManager.SkillPoints | src/components/SkillManagerUI.tsx:164 | unspent points the host did not send read as 0, sent ones as their value |
| SkillManager.CheckJobRequirements | src/components/SkillManagerUI.tsx:63-68 | a job is available exactly when every requirement's stat, missing read as 0, reaches its minimum |
| SkillManager.NoRequirementsEligible | src/components/SkillManagerUI.tsx:64 | a job without requirements is always available |
| SkillManager.MissingStatFails | src/components/SkillManagerUI.tsx:65-66 | a requirement on a stat not sent fails for any positive minimum |
| SkillManager.EligibilityMonotone | src/components/SkillManagerUI.tsx:63-68 | with every stat at least as high, an available job stays available |
| SkillManager.RaiseKeepsEligible | src/components/SkillManagerUI.tsx:63-68 | raising any single stat never makes an available job unavailable |
| SkillManager.RequirementLabel | src/components/SkillManagerUI.tsx:70-79 | the five known stat names get their captions, any other name is shown as itself |
| SkillManager.RequirementRows | src/components/SkillManagerUI.tsx:254-266 | one row per requirement entry in order, with its caption, current value (missing as 0) and minimum |
| SkillManager.AvailableAgreesWithRows | src/components/SkillManagerUI.tsx:254-256 | the card's availability agrees with its rows: available exactly when every row reads as met |
| SkillManager.CanIncrease | src/components/SkillManagerUI.tsx:164 | "+" is on exactly when a point is left and one more level stays within the maximum; never with no points |
| SkillManager.CanDecrease | src/components/SkillManagerUI.tsx:165 | "−" is on exactly when one level less stays non-negative; never for a skill not in the decoded map |
| SkillManager.GatedStepStaysInRange | src/components/SkillManagerUI.tsx:163-165 | from a level within 0..max, the step an enabled +/− asks for stays within 0..max; with no points "+" is off; a skill not in the decoded map has "−" off |
| SkillManager.CurrentJob | src/components/SkillManagerUI.tsx:215-227 | a current job is shown exactly when the job key is set, non-empty and in the catalog, and it is that catalog entry |
| SkillManager.JobBadge | src/components/SkillManagerUI.tsx:242-247 | "current" exactly for the recorded job, whose card is then the one shown as current; otherwise "available" exactly when the requirements are met |
| SkillManager.ChangeJobOffered | src/components/SkillManagerUI.tsx:269 | the change-job button is on exactly for a catalog job whose badge reads "available" |
| SkillManager.OfferedIffAvailableBadge | src/components/SkillManagerUI.tsx:242-247 | the change-job button appears exactly on the cards whose badge reads available |
| SkillManager.ChangeJobSettles | src/components/SkillManagerUI.tsx:269-277 | after the host records a change the job is no longer offered and shows as current; the job left behind is offered again exactly when still available; other offers are unchanged |
| SkillManager.Press | src/components/SkillManagerUI.tsx:150-192 | allocations carry ±1 for a catalog skill whose button is enabled; change-job only for an offered job; reset and close always forward |
| Text.FloorDiv | src/components/ResultUI.tsx:35 | `Math.floor(a / b)` is the greatest q with q·b ≤ a |
| Text.JsRem | src/components/ResultUI.tsx:36 | the remainder has the sign of the dividend and lies strictly within one divisor of 0 |
| ResultScreen.RatingScore | src/components/ResultUI.tsx:40-54 | the score equals the sum of the breakdown lines the screen prints |
| ResultScreen.GradeOf | src/components/ResultUI.tsx:55-60 | the grade is the best one whose threshold (200, 150, 100, 50) the score reaches, D when none |
| ResultScreen.CalculateRating | src/components/ResultUI.tsx:40-61 | the grade is the best one whose threshold the sum of the printed breakdown lines reaches, D when none |
| ResultScreen.GradeMonotone | src/components/ResultUI.tsx:56-60 | a higher score never earns a worse grade |
| ResultScreen.SuccessBonusExact | src/components/ResultUI.tsx:51-53 | success adds exactly 100 points over the same raid failed |
| ResultScreen.RatingExamples | src/components/ResultUI.tsx:40-60 | 300 s, 5 NPC and 2 player kills with success score 215 (S); all zeros failed score 0 (D); 600 s, 2 NPC kills with success score 210 |
| ResultScreen.Breakdown | src/components/ResultUI.tsx:172-189 | 10 points per whole minute survived, 5 per NPC kill, 20 per player kill, in that order, and a last 100-point line only on success |
| ResultScreen.BreakdownLinesSum | src/components/ResultUI.tsx:172-189 | the breakdown's total is the sum of its three or four lines' points |
| ResultScreen.BreakdownTotal | src/components/ResultUI.tsx:194-197 | the total printed under the breakdown equals the sum of the lines printed above it |
| ResultScreen.BreakdownAgreesWithRating | src/components/ResultUI.tsx:194-197 | the separately computed total equals the score the grade was computed from |
| Text.NoLeadingZero | src/components/ResultUI.tsx:37 | a number's decimal rendering starts with '0' exactly when the number is 0 |
| Text.ParseNatToString | src/components/ResultUI.tsx:37 | the decimal rendering of a number reads back as that number |
| Text.PadStart | src/components/ResultUI.tsx:37 | padding reaches the width (or keeps a longer string), ends with the original string and fills only with the pad character |
| ResultScreen.FormatTimeIsClock | src/components/ResultUI.tsx:34-37 | for non-negative seconds, `Math.floor(s / 60)` and `s % 60` are the natural quotient and remainder |
| ResultScreen.FormatTimeShape | src/components/ResultUI.tsx:34-38 | for non-negative seconds: the minutes rendered, a colon, and exactly two digits spelling seconds mod 60 |
| ResultScreen.ClockReadsBack | src/components/ResultUI.tsx:37 | minutes and a remainder below 60, once displayed, read back as minutes·60 + remainder |
| ResultScreen.TwoDigitField | src/components/ResultUI.tsx:37 | a remainder below 60, padded, is exactly two digits with its value |
| ResultScreen.FormatTime | src/components/ResultUI.tsx:34-38 | the display of any non-negative number of seconds reads back as that number; every display has at least four characters |
| ResultScreen.FormatTimeHalfMinuteBefore | src/components/ResultUI.tsx:34-38 | -30 seconds shows as "-1:-30": the minutes are floored and the remainder keeps the dividend's sign, as JavaScript computes them |
| ResultScreen.FormatTimeMinuteBefore | src/components/ResultUI.tsx:34-38 | -60 seconds shows as "-1:00": a whole negative minute leaves a zero remainder, padded to two digits |
| HazardZone.PanelFor | src/components/HazardZoneNUI.tsx:36-51 | exactly the four `show*` tags select a panel, each its own: raid join, ranking, skill manager, result |
| HazardZone.CloseUi | src/components/HazardZoneNUI.tsx:78-92 | closing clears panel and payload, keeps the toasts and appends one `closeUI` post |
| HazardZone.ShowNotification | src/components/HazardZoneNUI.tsx:94-104 | appends exactly one toast at the end with the given id, text and type and duration 3000; earlier toasts and everything else unchanged |
| HazardZone.RemoveNotification | src/components/HazardZoneNUI.tsx:106-108 | no toast with the dismissed id remains; nothing else changes |
| HazardZone.RemoveNotificationExact | src/components/HazardZoneNUI.tsx:107 | every toast with the id is gone, every other toast occurs exactly as often as before |
| HazardZone.RemoveNotificationOrder | src/components/HazardZoneNUI.tsx:107 | dismissing from a concatenated list dismisses from each part, so survivors keep their order |
| HazardZone.RemoveAbsentIsNoOp | src/components/HazardZoneNUI.tsx:107 | dismissing an id no toast carries leaves the state unchanged |
| HazardZone.OnMessage | src/components/HazardZoneNUI.tsx:32-58 | a `show*` tag opens its panel with the payload and changes nothing else; `hideUI` closes; an unknown tag changes nothing; only `showNotification` touches the toasts; at most one command is posted, after the earlier ones |
| HazardZone.ShowOpensPanel | src/components/HazardZoneNUI.tsx:36-51 | each `show*` message sets its panel and the payload, leaving toasts and outbox unchanged |
| HazardZone.NotificationFromMessage | src/components/HazardZoneNUI.tsx:52-54 | a `showNotification` message appends one toast whose type is the tag itself, never "info", with missing text as "" |
| HazardZone.UnknownTagIgnored | src/components/HazardZoneNUI.tsx:35-58 | a message with any other tag leaves the whole state unchanged |
| HazardZone.HandleJoinRaid | src/components/HazardZoneNUI.tsx:126-129 | a join posts role and pack only, then `closeUI`, and closes the panel |
| HazardZone.HandleResetSkills | src/components/HazardZoneNUI.tsx:135-139 | the reset is posted when confirmed and the state is unchanged otherwise |
| HazardZone.OnSkillRequest | src/components/HazardZoneNUI.tsx:131-143 | allocate and change-job post their arguments unchanged, a reset is posted only when confirmed, close closes; only close changes the open panel and none touches the toasts |
| HazardZone.Step | src/components/HazardZoneNUI.tsx:31-183 | each input posts at most two commands; only a host message can open a panel; a host message runs the message handler; Escape closes and other keys do nothing; dismissing a toast removes every toast with that id; the wizard's launch posts the join and closes, and its close, the skill panel's close and the panel's own close button all close the overlay; other skill requests go to the skill handler |
| HazardZone.HideAndEscapeClose | src/components/HazardZoneNUI.tsx:55-67 | `hideUI` and the Escape key both clear panel and payload and post `closeUI` |
| HazardZone.OtherKeysIgnored | src/components/HazardZoneNUI.tsx:64-68 | any key other than Escape changes nothing |
| HazardZone.SkillRequestsForwarded | src/components/HazardZoneNUI.tsx:131-143 | allocate and change-job reach the host with their arguments unchanged; a reset is posted exactly when confirmed |
| HazardZone.LaunchDropsModeAndTeam | src/components/HazardZoneNUI.tsx:126-128 | a launch from the wizard posts `joinRaid` with only role and pack, then `closeUI` |
| HazardZone.StepAppendsOnly | src/components/HazardZoneNUI.tsx:78-143 | every input only appends to the outbox, and changes the toast list only for a toast message or a dismissal |
| HazardZone.RunAppendsOnly | src/components/HazardZoneNUI.tsx:114-124 | over any input sequence, posted commands stay posted in their order |

## Left out

- Rendering: JSX, icons, CSS classes, the rating colour, and `toLocaleString` formatting. These are presentation only.
- The `fetch` POSTs to the host. They are network I/O, so each one is an outbox entry. The resource-name lookup for the URL is left out as well.
- The `window` message listener and the `document` key listener. They become the reducer's `Message` and `KeyDown` inputs.
- `window.confirm`. It becomes the `confirmed` flag of a skill-panel request.
- `Date.now()` toast ids. The id is a parameter and is not assumed to be unique.
- `JSON.parse` of the skills string. The decoded map is taken as given.
- NotificationSystem.tsx: it re-arms a `setTimeout` per toast on every list change. That is timer concurrency. Its expiry reaches the model only as a `Dismiss` input. Its icon and style switches are view mappings.
- RankingUI.tsx: it is a pure view. Its tab state never affects the data, and its rank tiers are cosmetic.
- Team-size caps, server-side point accounting, kick authorisation and launch authority. None of them is implemented in the client, and none is modelled.
- The wizard's state is not held by the reducer. React keeps it while the raid-join panel stays mounted. The two are linked through the wizard's launch request.
- The mode cards only ever pass solo, createTeam or joinTeam. The catch-all branch of the mode handler is exercised by joinTeam. A mode string outside these three is not modelled.
- Stats are an integer map. A requirement naming a non-numeric stats field (`skills`, `job`) is read as missing, i.e. as 0. The client compares the field's string itself, and a non-empty non-numeric string compares as NaN, which fails every minimum. The two therefore differ only for a minimum of 0 or less, which the model lets pass. A requirement naming an inherited object property (`toString`, `constructor`) is not modelled, and neither is the label lookup of such a name.
- Numbers are integers. Fractional seconds and NaN are not modelled.
- All values are assumed below 2^53. JavaScript numbers are doubles. Above 2^53 their `/`, `%` and `*` are inexact, and from 10^21 `toString` switches to exponent form. The model's unbounded integers keep exact arithmetic and full digits there.
- RaidJoin.EditTeamName: the 20-character cap counts Unicode code points. The browser counts UTF-16 units, so the two differ for characters outside the Basic Multilingual Plane.
- RaidJoin.Enabled: its own contract states only that the close button is always enabled. `EnabledOnItsScreen` states that each control is enabled only on its step's screen. Each control's remaining gate is the JSX condition as written, with no separate specification.
- ResultScreen.FormatTime: the round trip covers only non-negative seconds below 2^53. The screen passes `survival_time || 0`, which replaces only a missing, zero or NaN value, so a negative or very large time from the host reaches the formatter unchanged; the round trip assumes the host sends non-negative whole seconds. For negative seconds the body follows JavaScript (floored minutes, a remainder with the dividend's sign, so -30 shows as "-1:-30"), but for negative seconds the contract states only a length of at least four characters, and two worked examples (`FormatTimeHalfMinuteBefore`, `FormatTimeMinuteBefore`) pin concrete outputs.
- SkillManager.SkillLevel: a skill key naming an `Object.prototype` member (`constructor`, `toString`) reads as absent, so at level 0, in the model. The source reads the inherited function, which compares false both ways and disables both the "+" and the "-" button.
- SkillManager.CurrentJob: a recorded job key naming an `Object.prototype` member reads as absent in the model, so no current-job card. The source reads the inherited function, which is truthy, and shows a current-job card with no label.
- ResultScreen.FormatTimeShape: like the round trip, it covers only non-negative seconds.
