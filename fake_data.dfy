/**
  The deterministic part of the synthetic data generator
  (src/robotics_digest/fake_data/fake_data.py): the fixed users, the two
  projects and their phase calendars, phase lookup, and the per-day focus
  records.
 */
module FakeData {
  import opened Wrappers
  import opened Models
  import opened Text

  const ROLES: seq<Role> := [ME, EE, SCM, EM, PM]

  const NAMES: seq<string> :=
    ["Alice", "Bob", "Carol", "Dan", "Eve", "Frank", "Grace", "Heidi", "Ivan", "Judy"]

  /** Number of days the focus records cover. */
  const FOCUS_DAYS: nat := 30

  /** The `i`-th generated user. */
  function UserAt(i: nat): User
    requires i < |NAMES|
  {
    User("U" + NatToString(i), NAMES[i], ROLES[i % |ROLES|])
  }

  /** Ten users `U0`..`U9`, the roles cycling through ME, EE, SCM, EM, PM. */
  method GenerateUsers() returns (users: seq<User>)
    ensures |users| == 10
    ensures forall i | 0 <= i < |users| :: users[i] == UserAt(i)
    ensures forall i, j | 0 <= i < j < |users| :: users[i].id != users[j].id
  {
    users := [];
    for i := 0 to |NAMES|
      invariant |users| == i
      invariant forall k | 0 <= k < i :: users[k] == UserAt(k)
    {
      users := users + [User("U" + NatToString(i), NAMES[i], ROLES[i % |ROLES|])];
    }
    forall i, j | 0 <= i < j < |users| ensures users[i].id != users[j].id {
      assert users[i].id[1] == DigitChar(i) && users[j].id[1] == DigitChar(j);
    }
  }

  /**
    The two robotics projects, P1 and P2, each with a non-empty calendar of
    phases whose day ranges are non-empty, ascending and disjoint.
   */
  function GenerateProjects(): (ps: seq<Project>)
    ensures |ps| == 2 && ps[0].id == "P1" && ps[1].id == "P2"
    ensures forall p | 0 <= p < |ps| :: |ps[p].phases| > 0
    ensures forall p, i | 0 <= p < |ps| && 0 <= i < |ps[p].phases| ::
      ps[p].phases[i].startDay <= ps[p].phases[i].endDay
    ensures forall p, i | 0 <= p < |ps| && 0 <= i < |ps[p].phases| - 1 ::
      ps[p].phases[i].endDay < ps[p].phases[i + 1].startDay
  {
    [ Project("P1", "Robot Arm", [
        ProjectPhase(Concept, 0, 4),
        ProjectPhase(DetailedDesign, 5, 14),
        ProjectPhase(ProtoBuild, 15, 24),
        ProjectPhase(Dvt, 25, 29)]),
      Project("P2", "Mobile Base", [
        ProjectPhase(Concept, 10, 14),
        ProjectPhase(DetailedDesign, 15, 19),
        ProjectPhase(ProtoBuild, 20, 29)]) ]
  }

  predicate InPhase(ph: ProjectPhase, day: int) {
    ph.startDay <= day <= ph.endDay
  }

  /** The position of the first phase, in list order, whose range holds `day`. */
  function FirstPhaseHolding(phases: seq<ProjectPhase>, day: int): (r: Option<nat>)
    ensures r.Some? ==> r.value < |phases| && InPhase(phases[r.value], day)
    ensures r.Some? ==> forall j | 0 <= j < r.value :: !InPhase(phases[j], day)
    ensures r.None? ==> forall j | 0 <= j < |phases| :: !InPhase(phases[j], day)
  {
    if phases == [] then None
    else if InPhase(phases[0], day) then Some(0)
    else
      match FirstPhaseHolding(phases[1..], day)
      case Some(k) => Some(k + 1)
      case None => None
  }

  /**
    `current_phase`: the name of the first phase holding `day`, or of the last
    phase when none does.
   */
  function CurrentPhase(project: Project, day: int): (name: PhaseName)
    requires |project.phases| > 0
    ensures exists k | 0 <= k < |project.phases| :: project.phases[k].name == name
  {
    match FirstPhaseHolding(project.phases, day)
    case Some(k) => project.phases[k].name
    case None => project.phases[|project.phases| - 1].name
  }

  /** First match wins, whatever the later phases say. */
  lemma CurrentPhaseFirstMatch(project: Project, day: int, k: nat)
    requires k < |project.phases| && InPhase(project.phases[k], day)
    requires forall j | 0 <= j < k :: !InPhase(project.phases[j], day)
    ensures CurrentPhase(project, day) == project.phases[k].name
  {
  }

  /** With no phase holding `day`, the last phase is reported. */
  lemma CurrentPhaseFallback(project: Project, day: int)
    requires |project.phases| > 0
    requires forall j | 0 <= j < |project.phases| :: !InPhase(project.phases[j], day)
    ensures CurrentPhase(project, day) == project.phases[|project.phases| - 1].name
  {
  }

  /** Project P2 has no phase before day 10, so every earlier day falls back to proto_build. */
  lemma MobileBaseBeforeDayTen(day: int)
    requires day < 10
    ensures CurrentPhase(GenerateProjects()[1], day) == ProtoBuild
  {
    CurrentPhaseFallback(GenerateProjects()[1], day);
  }

  /** Project P2's calendar: concept 10-14, detailed_design 15-19, proto_build 20-29, proto_build otherwise. */
  lemma MobileBaseCalendar(day: int)
    ensures var p := CurrentPhase(GenerateProjects()[1], day);
            && (10 <= day <= 14 ==> p == Concept)
            && (15 <= day <= 19 ==> p == DetailedDesign)
            && (!(10 <= day <= 19) ==> p == ProtoBuild)
  {
    var p2 := GenerateProjects()[1];
    if 10 <= day <= 14 {
      CurrentPhaseFirstMatch(p2, day, 0);
    } else if 15 <= day <= 19 {
      CurrentPhaseFirstMatch(p2, day, 1);
    } else if 20 <= day <= 29 {
      CurrentPhaseFirstMatch(p2, day, 2);
    } else {
      CurrentPhaseFallback(p2, day);
    }
  }

  /** Project P1's calendar: days 0..29 map onto its four phases; other days fall back to dvt. */
  lemma RobotArmCalendar(day: int)
    ensures var p := CurrentPhase(GenerateProjects()[0], day);
            && (0 <= day <= 4 ==> p == Concept)
            && (5 <= day <= 14 ==> p == DetailedDesign)
            && (15 <= day <= 24 ==> p == ProtoBuild)
            && (25 <= day <= 29 ==> p == Dvt)
            && (day < 0 || day > 29 ==> p == Dvt)
  {
    var p1 := GenerateProjects()[0];
    if 0 <= day <= 4 {
      CurrentPhaseFirstMatch(p1, day, 0);
    } else if 5 <= day <= 14 {
      CurrentPhaseFirstMatch(p1, day, 1);
    } else if 15 <= day <= 24 {
      CurrentPhaseFirstMatch(p1, day, 2);
    } else if 25 <= day <= 29 {
      CurrentPhaseFirstMatch(p1, day, 3);
    } else {
      CurrentPhaseFallback(p1, day);
    }
  }

  /** The focus rule: P1 in the first ten days, both projects in the next ten, then P2. */
  function FocusProjects(day: int): (ids: seq<string>)
    ensures ids == ["P1"] || ids == ["P1", "P2"] || ids == ["P2"]
    ensures "P1" in ids <==> day < 20
    ensures "P2" in ids <==> day >= 10
  {
    if day < 10 then ["P1"]
    else if day < 20 then ["P1", "P2"]
    else ["P2"]
  }

  /** The `k`-th focus record: days in the outer loop, users in the inner one. */
  function FocusRecord(users: seq<User>, k: nat): UserFocus
    requires |users| > 0
  {
    var day := k / |users|;
    UserFocus(users[k % |users|].id, day, FocusProjects(day))
  }

  lemma {:induction false} MulAtLeast(a: nat, n: nat)
    requires a >= 1
    ensures a * n >= n
  {
    if a > 1 {
      MulAtLeast(a - 1, n);
      assert a * n == (a - 1) * n + n;
    }
  }

  /** Record `day * n + u` belongs to day `day` and user `u`. */
  lemma DayMajor(n: nat, day: nat, u: nat)
    requires u < n
    ensures (day * n + u) / n == day && (day * n + u) % n == u
  {
    var k := day * n + u;
    var q, r := k / n, k % n;
    assert k == q * n + r && 0 <= r < n;
    if day > q {
      MulAtLeast(day - q, n);
    } else if day < q {
      MulAtLeast(q - day, n);
    }
  }

  /** One record per (day, user) for 30 days, in day-major then user order. */
  method GenerateUserFocus(users: seq<User>, projects: seq<Project>) returns (focus: seq<UserFocus>)
    ensures |focus| == FOCUS_DAYS * |users|
    ensures forall k | 0 <= k < |focus| :: focus[k] == FocusRecord(users, k)
  {
    focus := [];
    for day := 0 to FOCUS_DAYS
      invariant |focus| == day * |users|
      invariant forall k | 0 <= k < |focus| :: focus[k] == FocusRecord(users, k)
    {
      for u := 0 to |users|
        invariant |focus| == day * |users| + u
        invariant forall k | 0 <= k < |focus| :: focus[k] == FocusRecord(users, k)
      {
        var projIds: seq<string>;
        if day < 10 {
          projIds := ["P1"];
        } else if day < 20 {
          projIds := ["P1", "P2"];
        } else {
          projIds := ["P2"];
        }
        DayMajor(|users|, day, u);
        focus := focus + [UserFocus(users[u].id, day, projIds)];
      }
    }
  }
}
