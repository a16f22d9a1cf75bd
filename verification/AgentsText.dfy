/**
 The two markers and the generated text of core/adoption/service.py, and the proof that AgentsBlock applies
 to them.
 */
module AgentsText {
  import opened AgentsBlock

  /** The autonomy levels the plan and the lock accept. */
  type Level = n: nat | n <= 5

  // Long constants are written in short pieces: the solver evaluates a literal character by character.
  const TAG: string := "!-- DARKFAC:"
  const SCOPE: string := " managed " + "project-" + "adoption-v1 --"
  const START_TEXT: string := TAG + "START" + SCOPE
  const END_TEXT: string := TAG + "END" + SCOPE
  const START: string := "<" + START_TEXT + ">"
  const END: string := "<" + END_TEXT + ">"

  const INTRO: string :=
    "\n## Dark Factory " + "project runtime\n\n" + "This repository " + "owns its " + "product rules. "
      + "Dark Factory is " + "an isolated, "
  const PINNED: string :=
    "pinned runtime under " + "`.factory/runtime/`; " + "never import a sibling " + "DarkFac checkout. Read "
      + "`MISSION.md` and "
  const WORKFLOW: string :=
    "`FACTORY_RULES.md` before " + "writing. Use " + "`.agents/skills/` for " + "workflows and run "
  const HARNESS: string :=
    "`python " + ".factory/darkfac.py " + "harness --quick` as the " + "deterministic " + "gate.\n\nAutonomy level: "
      + "**"
  const PERMISSIONS: string :=
    "**. Merge, deployment, " + "scheduling, credentials " + "and paid calls require " + "the permissions declared "
      + "by "
  const GOVERNANCE: string :=
    "this project's " + "governance.\n"

  function Digit(level: Level): char {
    ['0', '1', '2', '3', '4', '5'][level]
  }

  /** The text between the two markers. */
  function Middle(level: Level): string {
    INTRO + PINNED + WORKFLOW + HARNESS + [Digit(level)] + PERMISSIONS + GOVERNANCE
  }

  const MARKERS: Markers := Markers(START, END)

  lemma {:induction false} BracketedIsMarker(text: string)
    requires 12 < |text| && Plain(text)
    ensures IsMarker("<" + text + ">")
  {
  }

  ghost predicate Plain(text: string) {
    '<' !in text && '>' !in text && '\n' !in text
  }

  lemma {:induction false} TagIsPlain() ensures Plain(TAG) { }
  lemma {:induction false} ScopeIsPlain() ensures Plain(SCOPE) { }

  lemma {:induction false} StartIsMarker()
    ensures IsMarker(START) && START[13] == 'S'
  {
    TagIsPlain();
    ScopeIsPlain();
    BracketedIsMarker(START_TEXT);
  }

  lemma {:induction false} EndIsMarker()
    ensures IsMarker(END) && END[13] == 'E'
  {
    TagIsPlain();
    ScopeIsPlain();
    BracketedIsMarker(END_TEXT);
  }

  lemma {:induction false} IntroHasNoAngle() ensures '<' !in INTRO { }
  lemma {:induction false} PinnedHasNoAngle() ensures '<' !in PINNED { }
  lemma {:induction false} WorkflowHasNoAngle() ensures '<' !in WORKFLOW { }
  lemma {:induction false} HarnessHasNoAngle() ensures '<' !in HARNESS { }
  lemma {:induction false} PermissionsHaveNoAngle() ensures '<' !in PERMISSIONS { }
  lemma {:induction false} GovernanceHasNoAngle() ensures '<' !in GOVERNANCE { }

  lemma {:induction false} MiddleHasNoAngle(level: Level)
    ensures '<' !in Middle(level)
  {
    IntroHasNoAngle();
    PinnedHasNoAngle();
    WorkflowHasNoAngle();
    HarnessHasNoAngle();
    PermissionsHaveNoAngle();
    GovernanceHasNoAngle();
    assert forall a: string, b: string :: '<' !in a && '<' !in b ==> '<' !in a + b;
  }

  /** The laws of the merge hold for the source's own markers and for its block at any level. */
  lemma {:induction false} SourceBlockIsGood(level: Level)
    ensures GoodMarkers(MARKERS) && '<' !in Middle(level)
  {
    StartIsMarker();
    EndIsMarker();
    MiddleHasNoAngle(level);
  }
}
