/**
 The fixture filters of the hog-function filter tests and the exact
 programs they compile to.
 */
module Snapshots {
  import opened Results
  import opened Filters
  import opened Expressions
  import opened Bytecode
  import opened Builder
  import opened Compiler

  /** The team excludes persons whose email contains "@posthog.com". */
  const FixtureTeam := Team([PropertyCondition("email", "@posthog.com", NotIContains, PersonScope)])

  /** The "test action": one `$pageview` step whose url contains "docs". */
  const TestAction := Action([ActionStep(Some("$pageview"), Some("docs"), [])])

  const PageviewEntry := EventEntry(Some("$pageview"), [PropertyCondition("url", "docs", IContains, EventScope)])

  const FixtureProperties := [
    PropertyCondition("email", "@posthog.com", IContains, PersonScope),
    PropertyCondition("name", "ben", Exact, PersonScope)
  ]

  function FixtureFilters(actionId: int): FilterSpec {
    FilterSpec([PageviewEntry], [ActionEntry(actionId)], FixtureProperties, true)
  }

  /** The fixture's comparisons as expression trees. */
  const UrlDocs := ConditionExpr(PageviewEntry.properties[0])
  const EmailIContains := ConditionExpr(FixtureProperties[0])
  const NameExact := ConditionExpr(FixtureProperties[1])
  const EmailNotIContains := ConditionExpr(FixtureTeam.testAccountFilters[0])
  const EventPageview := EventNameExpr("$pageview")
  const CurrentUrlDocs := UrlContainsExpr("docs")

  /** The test action's only step. */
  const DocsStep := And([EventPageview, CurrentUrlDocs])

  /** Program pieces shared by the expected outputs. */
  const DocsOnUrl := [Int(32), Str("%docs%"), Int(32), Str("url"), Int(32), Str("properties"), Int(1), Int(2), Int(18)]
  const DocsOnCurrentUrl :=
    [Int(32), Str("%docs%"), Int(32), Str("$current_url"), Int(32), Str("properties"), Int(1), Int(2), Int(17)]
  const EventIsPageview := [Int(32), Str("$pageview"), Int(32), Str("event"), Int(1), Int(1), Int(11)]
  const NameIsBen :=
    [Int(32), Str("ben"), Int(32), Str("name"), Int(32), Str("properties"), Int(32), Str("person"), Int(1), Int(3), Int(11)]
  const EmailContains :=
    [Int(32), Str("%@posthog.com%"), Int(32), Str("email"), Int(32), Str("properties"), Int(32), Str("person"),
     Int(1), Int(3), Int(18)]
  const EmailNotContains :=
    [Int(32), Str("%@posthog.com%"), Int(32), Str("email"), Int(32), Str("properties"), Int(32), Str("person"),
     Int(1), Int(3), Int(20)]

  /** The empty filter dictionary: header and constant true. */
  lemma SnapshotEmpty(actionId: int)
    ensures Compile(NoFilters, FixtureTeam, map[actionId := TestAction]) == Success([Str("_h"), Int(29)])
  {
    CompileNothing(NoFilters, FixtureTeam, map[actionId := TestAction]);
  }

  /** The fixture's property comparisons and their programs. */
  lemma FixturePropertyPrograms()
    ensures Emit(ConditionExpr(PageviewEntry.properties[0])) == DocsOnUrl
    ensures Emit(ConditionExpr(FixtureProperties[0])) == EmailContains
    ensures Emit(ConditionExpr(FixtureProperties[1])) == NameIsBen
  {
    assert "%" + "docs" + "%" == "%docs%";
    assert "%" + "@posthog.com" + "%" == "%@posthog.com%";
    ConditionEncoding(PageviewEntry.properties[0]);
    ConditionEncoding(FixtureProperties[0]);
    ConditionEncoding(FixtureProperties[1]);
  }

  /** The test-account comparison, the event-name test and the url match, and their programs. */
  lemma FixtureConditionPrograms()
    ensures Emit(ConditionExpr(PageviewEntry.properties[0])) == DocsOnUrl
    ensures Emit(ConditionExpr(FixtureProperties[0])) == EmailContains
    ensures Emit(ConditionExpr(FixtureProperties[1])) == NameIsBen
    ensures Emit(ConditionExpr(FixtureTeam.testAccountFilters[0])) == EmailNotContains
    ensures Emit(EventNameExpr("$pageview")) == EventIsPageview
    ensures Emit(UrlContainsExpr("docs")) == DocsOnCurrentUrl
  {
    FixturePropertyPrograms();
    assert "%" + "@posthog.com" + "%" == "%@posthog.com%";
    assert "%" + "docs" + "%" == "%docs%";
    ConditionEncoding(FixtureTeam.testAccountFilters[0]);
    EventNameEncoding("$pageview");
    UrlContainsEncoding("docs");
  }

  /** The pageview entry's own group. */
  const PageviewGroup := And([EventPageview, UrlDocs])

  lemma BuildEvents(actionId: int)
    ensures Build(FilterSpec([PageviewEntry], [], [], false), FixtureTeam, map[actionId := TestAction])
         == Success(Or([PageviewGroup]))
  {
    var spec := FilterSpec([PageviewEntry], [], [], false);
    assert CommonExprs(spec, FixtureTeam) == [];
    assert EventConditions(PageviewEntry) == [EventPageview, UrlDocs];
    assert [] + [EventPageview, UrlDocs] == [EventPageview, UrlDocs];
    assert EventGroups(spec.events, []) == [PageviewGroup];
    assert [PageviewGroup] + [] == [PageviewGroup];
  }

  lemma EmitPageviewGroup()
    ensures Emit(PageviewGroup) == DocsOnUrl + EventIsPageview + [Int(3), Int(2)]
  {
    FixtureConditionPrograms();
    EmitAllCons(EventPageview, [UrlDocs]);
    EmitAllCons(UrlDocs, []);
    assert [UrlDocs] + [] == [UrlDocs] && [EventPageview] + [UrlDocs] == [EventPageview, UrlDocs];
  }

  lemma EmitEvents()
    ensures Emit(Or([PageviewGroup])) == DocsOnUrl + EventIsPageview + [Int(3), Int(2), Int(4), Int(1)]
  {
    EmitPageviewGroup();
    EmitAllCons(PageviewGroup, []);
    assert [PageviewGroup] + [] == [PageviewGroup];
  }

  /** Events only: url ilike and event eq under an AND of two, in an OR of one. */
  lemma SnapshotEvents(actionId: int)
    ensures Compile(FilterSpec([PageviewEntry], [], [], false), FixtureTeam, map[actionId := TestAction])
         == Success([Str("_h")] + DocsOnUrl + EventIsPageview + [Int(3), Int(2), Int(4), Int(1)])
  {
    BuildEvents(actionId);
    EmitEvents();
    CompileBuilt(FilterSpec([PageviewEntry], [], [], false), FixtureTeam, map[actionId := TestAction],
                 Or([PageviewGroup]));
    assert [Str(HEADER)] + (DocsOnUrl + EventIsPageview + [Int(3), Int(2), Int(4), Int(1)])
        == [Str("_h")] + DocsOnUrl + EventIsPageview + [Int(3), Int(2), Int(4), Int(1)];
  }

  lemma EmitDocsStep()
    ensures Emit(DocsStep) == DocsOnCurrentUrl + EventIsPageview + [Int(3), Int(2)]
  {
    FixtureConditionPrograms();
    EmitAllCons(EventPageview, [CurrentUrlDocs]);
    EmitAllCons(CurrentUrlDocs, []);
    assert [CurrentUrlDocs] + [] == [CurrentUrlDocs] && [EventPageview] + [CurrentUrlDocs] == [EventPageview, CurrentUrlDocs];
  }

  lemma BuildActionExpr()
    ensures ActionExpr(TestAction) == DocsStep
  {
  }

  /** The test action's group when nothing is common. */
  const DocsActionGroup := And([DocsStep])

  lemma BuildActions(actionId: int)
    ensures Build(FilterSpec([], [ActionEntry(actionId)], [], false), FixtureTeam, map[actionId := TestAction])
         == Success(Or([DocsActionGroup]))
  {
    var spec := FilterSpec([], [ActionEntry(actionId)], [], false);
    var actions := map[actionId := TestAction];
    BuildActionExpr();
    assert CommonExprs(spec, FixtureTeam) == [];
    assert [] + [DocsStep] == [DocsStep];
    assert actions[actionId] == TestAction;
    assert Group([], [DocsStep]) == DocsActionGroup;
    assert AllResolved(spec.actions, actions);
    var groups := ActionGroups(spec.actions, actions, []);
    assert groups.Success? && |groups.value| == 1;
    assert groups.value[0] == Group([], [ActionExpr(actions[spec.actions[0].id])]);
    assert groups.value == [DocsActionGroup];
    assert EventGroups([], []) + [DocsActionGroup] == [DocsActionGroup];
  }

  lemma EmitActions()
    ensures Emit(Or([DocsActionGroup]))
         == DocsOnCurrentUrl + EventIsPageview + [Int(3), Int(2), Int(3), Int(1), Int(4), Int(1)]
  {
    EmitDocsStep();
    EmitAllCons(DocsStep, []);
    EmitAllCons(DocsActionGroup, []);
    assert [DocsStep] + [] == [DocsStep] && [DocsActionGroup] + [] == [DocsActionGroup];
  }

  /** Actions only: the step's AND of two, the group's AND of one, the OR of one. */
  lemma SnapshotActions(actionId: int)
    ensures Compile(FilterSpec([], [ActionEntry(actionId)], [], false), FixtureTeam, map[actionId := TestAction])
         == Success([Str("_h")] + DocsOnCurrentUrl + EventIsPageview + [Int(3), Int(2), Int(3), Int(1), Int(4), Int(1)])
  {
    BuildActions(actionId);
    EmitActions();
    CompileBuilt(FilterSpec([], [ActionEntry(actionId)], [], false), FixtureTeam, map[actionId := TestAction],
                 Or([DocsActionGroup]));
    assert [Str(HEADER)] + (DocsOnCurrentUrl + EventIsPageview + [Int(3), Int(2), Int(3), Int(1), Int(4), Int(1)])
        == [Str("_h")] + DocsOnCurrentUrl + EventIsPageview + [Int(3), Int(2), Int(3), Int(1), Int(4), Int(1)];
  }

  lemma BuildProperties(actionId: int)
    ensures Build(FilterSpec([], [], FixtureProperties, false), FixtureTeam, map[actionId := TestAction])
         == Success(And([EmailIContains, NameExact]))
  {
    var spec := FilterSpec([], [], FixtureProperties, false);
    var common := [EmailIContains, NameExact];
    assert CommonExprs(spec, FixtureTeam) == common;
    assert ActionGroups([], map[actionId := TestAction], common) == Success([]);
    assert EventGroups([], common) + [] == [];
  }

  lemma EmitProperties()
    ensures Emit(And([EmailIContains, NameExact])) == NameIsBen + EmailContains + [Int(3), Int(2)]
  {
    FixtureConditionPrograms();
    EmitAllCons(EmailIContains, [NameExact]);
    EmitAllCons(NameExact, []);
    assert [NameExact] + [] == [NameExact] && [EmailIContains] + [NameExact] == [EmailIContains, NameExact];
  }

  /** Properties only: the AND of the two comparisons, the last listed first. */
  lemma SnapshotProperties(actionId: int)
    ensures Compile(FilterSpec([], [], FixtureProperties, false), FixtureTeam, map[actionId := TestAction])
         == Success([Str("_h")] + NameIsBen + EmailContains + [Int(3), Int(2)])
  {
    BuildProperties(actionId);
    EmitProperties();
    CompileBuilt(FilterSpec([], [], FixtureProperties, false), FixtureTeam, map[actionId := TestAction],
                 And([EmailIContains, NameExact]));
    assert [Str(HEADER)] + (NameIsBen + EmailContains + [Int(3), Int(2)])
        == [Str("_h")] + NameIsBen + EmailContains + [Int(3), Int(2)];
  }

  /** The conditions every group of the full fixture carries. */
  const FullCommon := [EmailNotIContains, EmailIContains, NameExact]
  const FullEventGroup := And(FullCommon + [EventPageview, UrlDocs])
  const FullActionGroup := And(FullCommon + [DocsStep])

  lemma BuildFull(actionId: int)
    ensures Build(FixtureFilters(actionId), FixtureTeam, map[actionId := TestAction])
         == Success(Or([FullEventGroup, FullActionGroup]))
  {
    var spec := FixtureFilters(actionId);
    var actions := map[actionId := TestAction];
    assert Conditions(FixtureProperties) == [EmailIContains, NameExact];
    assert CommonExprs(spec, FixtureTeam) == FullCommon;
    assert EventConditions(PageviewEntry) == [EventPageview, UrlDocs];
    assert EventGroups(spec.events, FullCommon) == [FullEventGroup];
    BuildActionExpr();
    assert actions[actionId] == TestAction;
    var groups := ActionGroups(spec.actions, actions, FullCommon);
    assert AllResolved(spec.actions, actions);
    assert groups.Success? && |groups.value| == 1;
    assert groups.value[0] == Group(FullCommon, [ActionExpr(actions[spec.actions[0].id])]);
    assert groups.value == [FullActionGroup];
    assert [FullEventGroup] + [FullActionGroup] == [FullEventGroup, FullActionGroup];
  }

  lemma EmitFullCommon()
    ensures EmitAll(FullCommon) == NameIsBen + EmailContains + EmailNotContains
  {
    FixtureConditionPrograms();
    EmitAllCons(NameExact, []);
    assert [NameExact] + [] == [NameExact];
    assert EmitAll([NameExact]) == NameIsBen;
    EmitAllCons(EmailIContains, [NameExact]);
    assert [EmailIContains] + [NameExact] == [EmailIContains, NameExact];
    assert EmitAll([EmailIContains, NameExact]) == NameIsBen + EmailContains;
    EmitAllCons(EmailNotIContains, [EmailIContains, NameExact]);
    assert [EmailNotIContains] + [EmailIContains, NameExact] == FullCommon;
  }

  /** The programs of the full fixture's two groups. */
  const ActionGroupProgram := DocsOnCurrentUrl + EventIsPageview + [Int(3), Int(2)]
                              + NameIsBen + EmailContains + EmailNotContains + [Int(3), Int(4)]
  const EventGroupProgram := DocsOnUrl + EventIsPageview
                             + NameIsBen + EmailContains + EmailNotContains + [Int(3), Int(5)]

  /** The pageview entry's own conditions, emitted last first. */
  lemma EmitPageviewConditions()
    ensures EmitAll([EventPageview, UrlDocs]) == DocsOnUrl + EventIsPageview
  {
    FixtureConditionPrograms();
    EmitAllCons(EventPageview, [UrlDocs]);
    EmitAllCons(UrlDocs, []);
    assert [UrlDocs] + [] == [UrlDocs] && [EventPageview] + [UrlDocs] == [EventPageview, UrlDocs];
  }

  lemma EmitFullEventGroup()
    ensures Emit(FullEventGroup) == EventGroupProgram
  {
    EmitFullCommon();
    EmitPageviewConditions();
    EmitAllAppend(FullCommon, [EventPageview, UrlDocs]);
    var own := DocsOnUrl + EventIsPageview;
    var common := NameIsBen + EmailContains + EmailNotContains;
    assert Emit(FullEventGroup) == own + common + [Int(3), Int(5)];
  }

  lemma EmitFullActionGroup()
    ensures Emit(FullActionGroup) == ActionGroupProgram
  {
    EmitDocsStep();
    EmitFullCommon();
    EmitAllAppend(FullCommon, [DocsStep]);
    EmitAllCons(DocsStep, []);
    assert [DocsStep] + [] == [DocsStep];
  }

  lemma EmitFull()
    ensures Emit(Or([FullEventGroup, FullActionGroup])) == ActionGroupProgram + EventGroupProgram + [Int(4), Int(2)]
  {
    EmitFullEventGroup();
    EmitFullActionGroup();
    EmitAllCons(FullEventGroup, [FullActionGroup]);
    EmitAllCons(FullActionGroup, []);
    assert [FullActionGroup] + [] == [FullActionGroup];
    assert [FullEventGroup] + [FullActionGroup] == [FullEventGroup, FullActionGroup];
  }

  /**
   The full fixture: the action's group (an AND of four) comes before the
   event's group (an AND of five), under an OR of two.
   */
  lemma SnapshotFull(actionId: int)
    ensures Compile(FixtureFilters(actionId), FixtureTeam, map[actionId := TestAction])
         == Success([Str("_h")] + ActionGroupProgram + EventGroupProgram + [Int(4), Int(2)])
  {
    BuildFull(actionId);
    CompileBuilt(FixtureFilters(actionId), FixtureTeam, map[actionId := TestAction],
                 Or([FullEventGroup, FullActionGroup]));
    EmitFull();
    assert [Str(HEADER)] + (ActionGroupProgram + EventGroupProgram + [Int(4), Int(2)])
        == [Str("_h")] + ActionGroupProgram + EventGroupProgram + [Int(4), Int(2)];
  }
}
