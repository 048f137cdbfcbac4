/** generate-from-pipeline: a PipelineRun is turned into a self-contained load test of the
    same shape. */
module LoadGenerator {
  import opened Prelude
  import opened PaddedScripts
  import Decimals

  datatype ParamType = StringType | ArrayType | ObjectType
  datatype ParamValue = ParamValue(kind: ParamType, text: string, items: seq<string>)
  datatype Param = Param(name: string, value: ParamValue)
  datatype Include = Include(name: string, params: seq<Param>)
  datatype Matrix = Matrix(params: seq<Param>, include_: seq<Include>)

  datatype Resources = Resources(requests: map<string, string>, limits: map<string, string>)
  const NO_RESOURCES := Resources(map[], map[])

  datatype Step = Step(name: string, image: string, script: string, resources: Resources)
  /** The steps, and the names of the string parameters. */
  datatype TaskSpec = TaskSpec(steps: seq<Step>, params: seq<string>)
  datatype TaskRef = TaskRef(resolver: string, params: seq<Param>)
  datatype PipelineTask = PipelineTask(
    name: string, runAfter: seq<string>, ref: Option<TaskRef>, spec: Option<TaskSpec>, matrix: Option<Matrix>)
  datatype PipelineSpec = PipelineSpec(tasks: seq<PipelineTask>, finally: seq<PipelineTask>)
  datatype StepOverride = StepOverride(step: string, resources: Resources)
  datatype TaskOverride = TaskOverride(
    task: string, resources: Option<Resources>, steps: seq<StepOverride>, serviceAccount: string)
  datatype PipelineRun = PipelineRun(spec: Option<PipelineSpec>, params: seq<Param>, overrides: seq<TaskOverride>)

  datatype TaskInfo = TaskInfo(
    name: string, bundleRef: string, bundleTaskName: string, runAfter: seq<string>, matrix: Option<Matrix>,
    isFinally: bool, inlineSize: int, stepNames: seq<string>, stepResources: seq<Resources>)

  datatype ResolvedTask = ResolvedTask(stepNames: seq<string>, stepResources: seq<Resources>, size: int, failed: bool)

  datatype Settings = Settings(
    image: string, sleepMin: Int64, sleepMax: Int64, defaultTaskSizeKB: int, defaultSteps: int, preserve: bool)

  /** The number of sleeps to choose from must fit 64 bits; the entropy source panics if not. */
  predicate Drawable(min: Int64, max: Int64) {
    max - min + 1 <= INT64_MAX
  }

  type Config = s: Settings | Drawable(s.sleepMin, s.sleepMax) witness Settings("", 0, 0, 0, 0, false)

  /** What the entropy source yields for one step. */
  datatype Draw = Draw(seconds: nat, bytes: nat -> Byte)

  // ----- extraction ---------------------------------------------------------------

  const BUNDLES := "bundles"

  /** The last parameter of that name decides. */
  function TextOf(params: seq<Param>, name: string): string {
    if params == [] then ""
    else
      var last := params[|params| - 1];
      if last.name == name then last.value.text else TextOf(params[..|params| - 1], name)
  }

  function StepNames(steps: seq<Step>): seq<string> {
    seq(|steps|, i requires 0 <= i < |steps| => steps[i].name)
  }

  function StepResources(steps: seq<Step>): seq<Resources> {
    seq(|steps|, i requires 0 <= i < |steps| => steps[i].resources)
  }

  /** `yamlSize` is the length of a serialised task spec. */
  function Info(t: PipelineTask, isFinally: bool, yamlSize: TaskSpec -> nat): TaskInfo {
    var params := if t.ref.Some? && t.ref.value.resolver == BUNDLES then t.ref.value.params else [];
    var steps := if t.spec.Some? then t.spec.value.steps else [];
    TaskInfo(
      t.name, TextOf(params, "bundle"), TextOf(params, "name"), t.runAfter, t.matrix, isFinally,
      if t.spec.Some? then yamlSize(t.spec.value) else 0, StepNames(steps), StepResources(steps))
  }

  /** The last parameter of the name gives the text; without one it is empty. */
  lemma {:induction false} TextOfLast(params: seq<Param>, name: string, i: nat)
    requires i < |params| && params[i].name == name && forall j :: i < j < |params| ==> params[j].name != name
    ensures TextOf(params, name) == params[i].value.text
  {
    if i < |params| - 1 { TextOfLast(params[..|params| - 1], name, i); }
  }

  lemma {:induction false} TextOfNone(params: seq<Param>, name: string)
    requires forall i :: 0 <= i < |params| ==> params[i].name != name
    ensures TextOf(params, name) == ""
  {
    if params != [] { TextOfNone(params[..|params| - 1], name); }
  }

  method ExtractSingleTaskInfo(t: PipelineTask, isFinally: bool, yamlSize: TaskSpec -> nat) returns (info: TaskInfo)
    ensures info == Info(t, isFinally, yamlSize)
    ensures info.name == t.name && info.runAfter == t.runAfter && info.matrix == t.matrix && info.isFinally == isFinally
    ensures if t.ref.Some? && t.ref.value.resolver == "bundles"
            then info.bundleRef == TextOf(t.ref.value.params, "bundle")
                 && info.bundleTaskName == TextOf(t.ref.value.params, "name")
            else info.bundleRef == "" && info.bundleTaskName == ""
    ensures t.spec.None? ==> info.inlineSize == 0 && info.stepNames == [] && info.stepResources == []
    ensures t.spec.Some? ==>
              var steps := t.spec.value.steps;
              && info.inlineSize == yamlSize(t.spec.value)
              && |info.stepNames| == |info.stepResources| == |steps|
              && forall i :: 0 <= i < |steps| ==>
                   info.stepNames[i] == steps[i].name && info.stepResources[i] == steps[i].resources
  {
    info := TaskInfo(t.name, "", "", t.runAfter, t.matrix, isFinally, 0, [], []);
    if t.ref.Some? && t.ref.value.resolver == BUNDLES {
      var params := t.ref.value.params;
      for i := 0 to |params|
        invariant info == TaskInfo(t.name, TextOf(params[..i], "bundle"), TextOf(params[..i], "name"),
                                   t.runAfter, t.matrix, isFinally, 0, [], [])
      {
        assert params[..i + 1][..i] == params[..i];
        if params[i].name == "bundle" {
          info := info.(bundleRef := params[i].value.text);
        } else if params[i].name == "name" {
          info := info.(bundleTaskName := params[i].value.text);
        }
      }
      assert params[..|params|] == params;
    }
    if t.spec.Some? {
      var names, resources := [], [];
      var steps := t.spec.value.steps;
      for i := 0 to |steps|
        invariant names == StepNames(steps[..i]) && resources == StepResources(steps[..i])
      {
        names := names + [steps[i].name];
        resources := resources + [steps[i].resources];
      }
      assert steps[..|steps|] == steps;
      info := info.(inlineSize := yamlSize(t.spec.value), stepNames := names, stepResources := resources);
    }
  }

  function InfosOf(ts: seq<PipelineTask>, isFinally: bool, yamlSize: TaskSpec -> nat): seq<TaskInfo> {
    seq(|ts|, i requires 0 <= i < |ts| => Info(ts[i], isFinally, yamlSize))
  }

  function Infos(pr: PipelineRun, yamlSize: TaskSpec -> nat): seq<TaskInfo> {
    if pr.spec.None? then []
    else InfosOf(pr.spec.value.tasks, false, yamlSize) + InfosOf(pr.spec.value.finally, true, yamlSize)
  }

  method ExtractTaskInfos(pr: PipelineRun, yamlSize: TaskSpec -> nat) returns (infos: seq<TaskInfo>)
    ensures infos == Infos(pr, yamlSize)
  {
    hide Info;
    infos := [];
    if pr.spec.None? { return; }
    var tasks, finally := pr.spec.value.tasks, pr.spec.value.finally;
    for i := 0 to |tasks|
      invariant infos == InfosOf(tasks[..i], false, yamlSize)
    {
      var info := ExtractSingleTaskInfo(tasks[i], false, yamlSize);
      infos := infos + [info];
    }
    assert tasks[..|tasks|] == tasks;
    ghost var regular := infos;
    for i := 0 to |finally|
      invariant infos == regular + InfosOf(finally[..i], true, yamlSize)
    {
      var info := ExtractSingleTaskInfo(finally[i], true, yamlSize);
      infos := infos + [info];
    }
    assert finally[..|finally|] == finally;
  }

  // ----- matrices -----------------------------------------------------------------

  /** The array the PipelineRun gives a parameter; the last array of that name wins. */
  function ArrayOf(params: seq<Param>, name: string): Option<seq<string>> {
    if params == [] then None
    else
      var last := params[|params| - 1];
      if last.name == name && last.value.kind.ArrayType? then Some(last.value.items)
      else ArrayOf(params[..|params| - 1], name)
  }

  predicate IsArray(p: Param, name: string) {
    p.name == name && p.value.kind == ArrayType
  }

  /** The last array parameter of the name gives the values; others do not count. */
  lemma {:induction false} ArrayOfLast(params: seq<Param>, name: string, i: nat)
    requires i < |params| && IsArray(params[i], name) && forall j :: i < j < |params| ==> !IsArray(params[j], name)
    ensures ArrayOf(params, name) == Some(params[i].value.items)
  {
    if i < |params| - 1 { ArrayOfLast(params[..|params| - 1], name, i); }
  }

  lemma {:induction false} ArrayOfNone(params: seq<Param>, name: string)
    requires forall i :: 0 <= i < |params| ==> !IsArray(params[i], name)
    ensures ArrayOf(params, name) == None
  {
    if params != [] { ArrayOfNone(params[..|params| - 1], name); }
  }

  const REFERENCE := "$(params."

  /** `$(params.<name>)` */
  function Referenced(s: string): Option<string> {
    if |s| > |REFERENCE| && s[..|REFERENCE|] == REFERENCE && s[|s| - 1] == ')'
    then Some(s[|REFERENCE|..|s| - 1])
    else None
  }

  lemma ReferencedExact(s: string, name: string)
    ensures Referenced(s) == Some(name) <==> s == "$(params." + name + ")"
  {
    if Referenced(s) == Some(name) {
      assert s == s[..|REFERENCE|] + s[|REFERENCE|..|s| - 1] + [s[|s| - 1]];
    }
    if s == REFERENCE + name + ")" {
      assert s[..|REFERENCE|] == REFERENCE && s[|REFERENCE|..|s| - 1] == name;
    }
  }

  function ResolvedValue(value: ParamValue, params: seq<Param>): ParamValue {
    if |value.items| != 1 then value
    else match Referenced(value.items[0])
      case None => value
      case Some(name) =>
        match ArrayOf(params, name)
        case None => value
        case Some(items) => ParamValue(ArrayType, "", items)
  }

  function ResolvedParams(mps: seq<Param>, params: seq<Param>): seq<Param> {
    seq(|mps|, i requires 0 <= i < |mps| => Param(mps[i].name, ResolvedValue(mps[i].value, params)))
  }

  function ResolvedMatrix(m: Matrix, params: seq<Param>): Matrix {
    Matrix(ResolvedParams(m.params, params), m.include_)
  }

  /** A value changes only if it is a single reference to an array parameter of the run,
      and then it becomes that array. */
  lemma ResolvedValueExact(value: ParamValue, params: seq<Param>, name: string)
    ensures value.items == ["$(params." + name + ")"] && ArrayOf(params, name).Some? ==>
              ResolvedValue(value, params) == ParamValue(ArrayType, "", ArrayOf(params, name).value)
    ensures (forall n :: value.items == [REFERENCE + n + ")"] ==> ArrayOf(params, n).None?) ==>
              ResolvedValue(value, params) == value
  {
    ReferencedExact(REFERENCE + name + ")", name);
    if ResolvedValue(value, params) != value {
      var n := Referenced(value.items[0]).value;
      ReferencedExact(value.items[0], n);
      assert value.items == [REFERENCE + n + ")"];
    }
  }

  method ResolveMatrixValues(matrix: Option<Matrix>, params: seq<Param>) returns (resolved: Option<Matrix>)
    ensures matrix.None? <==> resolved.None?
    ensures matrix.Some? ==> resolved.value == ResolvedMatrix(matrix.value, params)
  {
    if matrix.None? { return None; }
    var arrays: map<string, seq<string>> := map[];
    for i := 0 to |params|
      invariant forall name :: name in arrays <==> ArrayOf(params[..i], name).Some?
      invariant forall name :: name in arrays ==> arrays[name] == ArrayOf(params[..i], name).value
    {
      assert params[..i + 1][..i] == params[..i];
      if params[i].value.kind.ArrayType? {
        arrays := arrays[params[i].name := params[i].value.items];
      }
    }
    assert params[..|params|] == params;
    var mps := matrix.value.params;
    var out: seq<Param> := [];
    for i := 0 to |mps|
      invariant out == ResolvedParams(mps[..i], params)
    {
      var value := mps[i].value;
      if |value.items| == 1 {
        var name := Referenced(value.items[0]);
        if name.Some? && name.value in arrays {
          value := ParamValue(ArrayType, "", arrays[name.value]);
        }
      }
      out := out + [Param(mps[i].name, value)];
    }
    assert mps[..|mps|] == mps;
    resolved := Some(Matrix(out, matrix.value.include_));
  }

  /** Without array parameters nothing is left to resolve. */
  lemma ResolvedAlone(m: Matrix)
    ensures ResolvedMatrix(m, []) == m
  {
    assert ResolvedParams(m.params, []) == m.params;
  }

  // ----- fan-out --------------------------------------------------------------------

  /** The value lists of a matrix that have a value. */
  function Lists(params: seq<Param>): seq<seq<string>> {
    if params == [] then []
    else (if params[0].value.items == [] then [] else [params[0].value.items]) + Lists(params[1..])
  }

  /** Lists keeps the value lists in order and leaves out only empty ones. */
  lemma {:induction false} ListsAppend(params: seq<Param>, p: Param)
    ensures Lists(params + [p]) == Lists(params) + (if |p.value.items| > 0 then [p.value.items] else [])
  {
    if params == [] {
      assert params + [p] == [p];
    } else {
      assert (params + [p])[0] == params[0] && (params + [p])[1..] == params[1..] + [p];
      ListsAppend(params[1..], p);
    }
  }

  function Prefixed(heads: seq<string>, tails: seq<seq<string>>): seq<seq<string>> {
    if heads == [] then []
    else seq(|tails|, i requires 0 <= i < |tails| => [heads[0]] + tails[i]) + Prefixed(heads[1..], tails)
  }

  /** All ways to pick one value per list. */
  function Combinations(lists: seq<seq<string>>): seq<seq<string>> {
    if lists == [] then [[]] else Prefixed(lists[0], Combinations(lists[1..]))
  }

  predicate Picks(c: seq<string>, lists: seq<seq<string>>) {
    |c| == |lists| && forall i :: 0 <= i < |c| ==> c[i] in lists[i]
  }

  lemma {:induction false} PrefixedCount(heads: seq<string>, tails: seq<seq<string>>)
    ensures |Prefixed(heads, tails)| == |heads| * |tails|
  {
    if heads != [] { PrefixedCount(heads[1..], tails); }
  }

  lemma {:induction false} PrefixedExact(heads: seq<string>, tails: seq<seq<string>>, c: seq<string>)
    ensures c in Prefixed(heads, tails) <==> c != [] && c[0] in heads && c[1..] in tails
  {
    if heads != [] {
      PrefixedExact(heads[1..], tails, c);
      PrefixedByOne(heads[0], tails, c);
      assert heads == [heads[0]] + heads[1..];
    }
  }

  lemma PrefixedByOne(head: string, tails: seq<seq<string>>, c: seq<string>)
    ensures c in seq(|tails|, i requires 0 <= i < |tails| => [head] + tails[i]) <==>
            c != [] && c[0] == head && c[1..] in tails
  {
    var first := seq(|tails|, i requires 0 <= i < |tails| => [head] + tails[i]);
    if c != [] && c[0] == head && c[1..] in tails {
      var i :| 0 <= i < |tails| && tails[i] == c[1..];
      assert first[i] == c;
    }
    if c in first {
      var i :| 0 <= i < |tails| && first[i] == c;
      assert c[1..] == tails[i];
    }
  }

  /** Every choice is there, and nothing else. */
  lemma {:induction false} CombinationsExact(lists: seq<seq<string>>, c: seq<string>)
    ensures c in Combinations(lists) <==> Picks(c, lists)
  {
    if lists != [] {
      PrefixedExact(lists[0], Combinations(lists[1..]), c);
      if c != [] {
        CombinationsExact(lists[1..], c[1..]);
        assert Picks(c, lists) <==> c[0] in lists[0] && Picks(c[1..], lists[1..]) by {
          if c[0] in lists[0] && Picks(c[1..], lists[1..]) {
            forall i | 0 <= i < |c| ensures c[i] in lists[i] {
              if i > 0 { assert c[1..][i - 1] in lists[1..][i - 1]; }
            }
          }
        }
      }
    }
  }

  /** The number of TaskRuns: one per choice of the matrix, or one per include when there
      are only includes. */
  method MatrixExpansionCount(matrix: Option<Matrix>) returns (count: nat)
    ensures matrix.None? ==> count == 1
    ensures matrix.Some? && (matrix.value.params != [] || matrix.value.include_ == []) ==>
              count == |Combinations(Lists(matrix.value.params))|
    ensures matrix.Some? && matrix.value.params == [] && matrix.value.include_ != [] ==>
              count == |matrix.value.include_|
  {
    hide Combinations, Lists;
    if matrix.None? { return 1; }
    var params := matrix.value.params;
    count := 1;
    assert params[0..] == params;
    for i := 0 to |params|
      invariant count * |Combinations(Lists(params[i..]))| == |Combinations(Lists(params))|
    {
      var n := |params[i].value.items|;
      FanOutStep(params[i..], count);
      assert params[i..][1..] == params[i + 1..];
      if n > 0 {
        count := count * n;
      }
    }
    assert params[|params|..] == [];
    NoFanOut();
    if count == 1 && |params| == 0 && |matrix.value.include_| > 0 {
      return |matrix.value.include_|;
    }
  }

  lemma NoFanOut()
    ensures |Combinations(Lists([]))| == 1
  {
  }

  lemma FanOutStep(params: seq<Param>, count: nat)
    requires params != []
    ensures var n := |params[0].value.items|;
            count * |Combinations(Lists(params))| ==
            (if n > 0 then count * n else count) * |Combinations(Lists(params[1..]))|
  {
    var items, rest := params[0].value.items, Lists(params[1..]);
    if items == [] {
      assert Lists(params) == rest;
    } else {
      assert Lists(params)[0] == items && Lists(params)[1..] == rest;
      PrefixedCount(items, Combinations(rest));
      Associate(count, |items|, |Combinations(rest)|);
    }
  }

  lemma Associate(a: nat, b: nat, c: nat)
    ensures a * (b * c) == a * b * c
  {
  }

  // ----- one task -------------------------------------------------------------------

  /** randomInt: min plus a uniform draw from the closed range. */
  function RandomInt(min: Int64, max: Int64, draw: nat): (r: Int64)
    requires Drawable(min, max)
    ensures min <= max ==> min <= r <= max
    ensures min > max ==> r == min
  {
    if min >= max then min else min + draw % (max - min + 1)
  }

  /** Every value of the range is drawn by some draw. */
  lemma RandomIntReaches(min: Int64, max: Int64, n: Int64)
    requires Drawable(min, max) && min <= n <= max
    ensures RandomInt(min, max, n - min) == n
  {
  }

  /** Steps, size and names to aim for. */
  datatype Plan = Plan(steps: int, size: int, names: seq<string>, resources: seq<Resources>)

  /** Bundle metadata, then inline metrics, over the defaults. */
  function PlanOf(t: TaskInfo, r: Option<ResolvedTask>, cfg: Config): (p: Plan)
    ensures p.steps >= 1
  {
    var p0 := Plan(cfg.defaultSteps, cfg.defaultTaskSizeKB * 1024, [], []);
    var p1 :=
      if r.Some? && !r.value.failed then
        var q := if r.value.stepNames != []
                 then p0.(steps := |r.value.stepNames|, names := r.value.stepNames, resources := r.value.stepResources)
                 else p0;
        if r.value.size > 0 then q.(size := r.value.size) else q
      else if r.Some? && r.value.size > 0 then p0.(size := r.value.size)
      else p0;
    var p2 :=
      if t.bundleRef == "" && t.stepNames != [] then
        Plan(|t.stepNames|, if t.inlineSize > 0 then t.inlineSize else p1.size, t.stepNames, t.stepResources)
      else p1;
    if p2.steps < 1 then p2.(steps := 1) else p2
  }

  function PerStep(p: Plan): (size: int)
    requires p.steps >= 1
    ensures size >= 100
  {
    if p.size / p.steps < 100 then 100 else p.size / p.steps
  }

  function StepName(p: Plan, i: nat): string {
    if i < |p.names| && p.names[i] != "" then p.names[i] else "step-" + Decimals.PrintInt(i)
  }

  function StepOf(p: Plan, i: nat, cfg: Config, draw: Draw): Step
    requires p.steps >= 1
  {
    Step(StepName(p, i), cfg.image,
         PadScript(RandomInt(cfg.sleepMin, cfg.sleepMax, draw.seconds), PerStep(p), draw.bytes),
         if cfg.preserve && i < |p.resources| then p.resources[i] else NO_RESOURCES)
  }

  function StepsOf(p: Plan, n: nat, cfg: Config, draws: nat -> Draw): seq<Step>
    requires p.steps >= 1
  {
    seq(n, i requires 0 <= i => StepOf(p, i, cfg, draws(i)))
  }

  function ParamNames(m: Option<Matrix>): seq<string> {
    if m.None? then [] else seq(|m.value.params|, i requires 0 <= i < |m.value.params| => m.value.params[i].name)
  }

  function TaskOf(t: TaskInfo, r: Option<ResolvedTask>, params: seq<Param>, cfg: Config,
                  draws: nat -> Draw): PipelineTask
  {
    var p := PlanOf(t, r, cfg);
    var matrix := if t.matrix.None? then None else Some(ResolvedMatrix(t.matrix.value, params));
    PipelineTask(t.name, t.runAfter, None, Some(TaskSpec(StepsOf(p, p.steps, cfg, draws), ParamNames(matrix))), matrix)
  }

  method GeneratePipelineTask(t: TaskInfo, r: Option<ResolvedTask>, params: seq<Param>, cfg: Config, draws: nat -> Draw)
      returns (pt: PipelineTask)
    ensures pt == TaskOf(t, r, params, cfg, draws)
  {
    hide StepOf, PlanOf, ResolvedMatrix;
    var p := PlanOf(t, r, cfg);
    var steps: seq<Step> := [];
    for i := 0 to p.steps
      invariant steps == StepsOf(p, i, cfg, draws)
    {
      steps := steps + [StepOf(p, i, cfg, draws(i))];
    }
    var matrix := ResolveMatrixValues(t.matrix, params);
    var names: seq<string> := [];
    if matrix.Some? {
      var mps := matrix.value.params;
      for i := 0 to |mps|
        invariant names == ParamNames(Some(Matrix(mps[..i], [])))
      {
        names := names + [mps[i].name];
      }
      assert mps[..|mps|] == mps;
    }
    assert names == ParamNames(matrix);
    pt := PipelineTask(t.name, t.runAfter, None, Some(TaskSpec(steps, names)), matrix);
  }

  // ----- sizes ----------------------------------------------------------------------

  function Total(steps: seq<Step>): nat {
    if steps == [] then 0 else Total(steps[..|steps| - 1]) + |steps[|steps| - 1].script|
  }

  lemma {:induction false} TotalBounds(p: Plan, n: nat, cfg: Config, draws: nat -> Draw)
    requires p.steps >= 1
    ensures n * (PerStep(p) - 1) <= Total(StepsOf(p, n, cfg, draws)) <= n * PerStep(p)
  {
    hide PadScript, PerStep;
    if n > 0 {
      TotalBounds(p, n - 1, cfg, draws);
      var steps := StepsOf(p, n, cfg, draws);
      assert steps[..n - 1] == StepsOf(p, n - 1, cfg, draws);
      var d := draws(n - 1);
      PaddedTo(RandomInt(cfg.sleepMin, cfg.sleepMax, d.seconds), PerStep(p), d.bytes);
    }
  }

  /** The scripts of a task together come within two bytes per step of the size that applies:
      a positive size of an inline task, else a positive size of its bundle (resolved or not),
      else the default; a task too small for a hundred bytes per step gets about that much. */
  lemma TaskSize(t: TaskInfo, r: Option<ResolvedTask>, params: seq<Param>, cfg: Config, draws: nat -> Draw)
    ensures var steps := TaskOf(t, r, params, cfg, draws).spec.value.steps;
            var inlined := t.bundleRef == "" && t.stepNames != [];
            var size := if inlined && t.inlineSize > 0 then t.inlineSize
                        else if r.Some? && r.value.size > 0 then r.value.size
                        else cfg.defaultTaskSizeKB * 1024;
            if size >= 100 * |steps| then size - 2 * |steps| < Total(steps) <= size
            else 99 * |steps| <= Total(steps) <= 100 * |steps|
  {
    hide StepOf, Total;
    var p := PlanOf(t, r, cfg);
    TotalBounds(p, p.steps, cfg, draws);
    Shares(p.size, p.steps);
  }

  /** The steps have these names where one is given and `step-<i>` elsewhere, run the given
      image, sleep for a time within the bounds and do nothing else, and carry the given
      resources if resources are preserved. */
  predicate StepsFit(steps: seq<Step>, names: seq<string>, resources: seq<Resources>, cfg: Config) {
    forall i :: 0 <= i < |steps| ==> StepFits(steps[i], i, names, resources, cfg)
  }

  predicate StepFits(step: Step, i: nat, names: seq<string>, resources: seq<Resources>, cfg: Config) {
    && step.name == (if i < |names| && names[i] != "" then names[i] else "step-" + Decimals.PrintInt(i))
    && step.image == cfg.image
    && step.resources == (if cfg.preserve && i < |resources| then resources[i] else Resources(map[], map[]))
    && SleepsOnly(step.script, cfg)
  }

  predicate SleepsOnly(script: string, cfg: Config) {
    exists n: Int64 {:trigger Decimals.PrintInt(n)} ::
      && Commands(Lines(script)) == ["sleep " + Decimals.PrintInt(n)]
      && (if cfg.sleepMin <= cfg.sleepMax then cfg.sleepMin <= n <= cfg.sleepMax else n == cfg.sleepMin)
  }

  lemma PlannedFits(p: Plan, i: nat, cfg: Config, draw: Draw)
    requires p.steps >= 1
    ensures StepFits(StepOf(p, i, cfg, draw), i, p.names, p.resources, cfg)
  {
    hide PadScript, Lines, Commands, PerStep, RandomInt, Decimals.PrintInt;
    var n := RandomInt(cfg.sleepMin, cfg.sleepMax, draw.seconds);
    PadScriptRuns(n, PerStep(p), draw.bytes);
    assert Commands(Lines(StepOf(p, i, cfg, draw).script)) == ["sleep " + Decimals.PrintInt(n)];
  }

  /** Where the steps of a generated task come from: an inline task's own steps, else those of
      its bundle if that was resolved and has any, else the default number of unnamed ones, at
      least one. */
  predicate ComeFrom(steps: seq<Step>, t: TaskInfo, r: Option<ResolvedTask>, cfg: Config) {
    if t.bundleRef == "" && t.stepNames != [] then
      |steps| == |t.stepNames| && StepsFit(steps, t.stepNames, t.stepResources, cfg)
    else if r.Some? && !r.value.failed && r.value.stepNames != [] then
      |steps| == |r.value.stepNames| && StepsFit(steps, r.value.stepNames, r.value.stepResources, cfg)
    else
      |steps| == (if cfg.defaultSteps < 1 then 1 else cfg.defaultSteps) && StepsFit(steps, [], [], cfg)
  }

  lemma TaskSteps(t: TaskInfo, r: Option<ResolvedTask>, params: seq<Param>, cfg: Config, draws: nat -> Draw)
    ensures ComeFrom(TaskOf(t, r, params, cfg, draws).spec.value.steps, t, r, cfg)
  {
    hide StepOf, StepFits;
    var p := PlanOf(t, r, cfg);
    forall i | 0 <= i < p.steps ensures StepFits(StepOf(p, i, cfg, draws(i)), i, p.names, p.resources, cfg) {
      PlannedFits(p, i, cfg, draws(i));
    }
  }

  /** The rest of a generated task: name and constraints, no reference, and the matrix with its
      values resolved and one string parameter for each of its parameters. */
  lemma TaskFrame(t: TaskInfo, r: Option<ResolvedTask>, params: seq<Param>, cfg: Config, draws: nat -> Draw)
    ensures var g := TaskOf(t, r, params, cfg, draws);
            && g.name == t.name && g.runAfter == t.runAfter && g.ref.None? && g.spec.Some?
            && (t.matrix.None? ==> g.matrix.None? && g.spec.value.params == [])
            && (t.matrix.Some? ==>
                  && g.matrix.Some? && g.matrix.value.include_ == t.matrix.value.include_
                  && |g.matrix.value.params| == |g.spec.value.params| == |t.matrix.value.params|
                  && forall i :: 0 <= i < |t.matrix.value.params| ==>
                       && g.spec.value.params[i] == g.matrix.value.params[i].name == t.matrix.value.params[i].name
                       && g.matrix.value.params[i].value == ResolvedValue(t.matrix.value.params[i].value, params))
  {
    hide PlanOf, StepsOf, ResolvedValue;
  }

  lemma Shares(size: int, steps: int)
    requires steps >= 1
    ensures size - steps < steps * (size / steps) <= size
    ensures size >= 100 * steps <==> size / steps >= 100
    ensures steps * (size / steps - 1) == steps * (size / steps) - steps
  {
    assert size == steps * (size / steps) + size % steps;
    if size / steps >= 100 {
      assert steps * (size / steps) >= steps * 100;
    }
  }

  // ----- the whole run ----------------------------------------------------------------

  datatype Env = Env(
    resolved: map<string, ResolvedTask>, params: seq<Param>, overrides: seq<TaskOverride>, cfg: Config,
    draws: nat -> nat -> Draw)

  function Lookup(env: Env, name: string): Option<ResolvedTask> {
    if name in env.resolved then Some(env.resolved[name]) else None
  }

  function TaskAt(infos: seq<TaskInfo>, i: nat, env: Env): PipelineTask
    requires i < |infos|
  {
    TaskOf(infos[i], Lookup(env, infos[i].name), env.params, env.cfg, env.draws(i))
  }

  /** The tasks generated for the infos of one kind, in their order. */
  function Part(infos: seq<TaskInfo>, isFinally: bool, env: Env): seq<PipelineTask> {
    if infos == [] then []
    else
      var n := |infos| - 1;
      Part(infos[..n], isFinally, env) + (if infos[n].isFinally == isFinally then [TaskAt(infos, n, env)] else [])
  }

  /** The override of a task; the last entry of that name wins. */
  function OverrideOf(overrides: seq<TaskOverride>, name: string): Option<TaskOverride> {
    if overrides == [] then None
    else
      var last := overrides[|overrides| - 1];
      if last.task == name then Some(last) else OverrideOf(overrides[..|overrides| - 1], name)
  }

  /** Only compute resources are carried over, and only if there are any. */
  function Forwarded(o: Option<TaskOverride>): seq<TaskOverride> {
    if o.None? || (o.value.resources.None? && o.value.steps == []) then []
    else [TaskOverride(o.value.task, o.value.resources, o.value.steps, "")]
  }

  function Overrides(infos: seq<TaskInfo>, overrides: seq<TaskOverride>): seq<TaskOverride> {
    if infos == [] then []
    else
      var n := |infos| - 1;
      Overrides(infos[..n], overrides) + Forwarded(OverrideOf(overrides, infos[n].name))
  }

  function Generated(infos: seq<TaskInfo>, env: Env): PipelineRun {
    PipelineRun(
      Some(PipelineSpec(Part(infos, false, env), Part(infos, true, env))), [],
      if env.cfg.preserve then Overrides(infos, env.overrides) else [])
  }

  method IndexOverrides(overrides: seq<TaskOverride>) returns (byName: map<string, TaskOverride>)
    ensures forall n :: if n in byName then OverrideOf(overrides, n) == Some(byName[n])
                        else OverrideOf(overrides, n).None?
  {
    byName := map[];
    for i := 0 to |overrides|
      invariant forall n :: if n in byName then OverrideOf(overrides[..i], n) == Some(byName[n])
                            else OverrideOf(overrides[..i], n).None?
    {
      assert overrides[..i + 1][..i] == overrides[..i];
      byName := byName[overrides[i].task := overrides[i]];
    }
    assert overrides[..|overrides|] == overrides;
  }

  method GeneratePipelineRun(infos: seq<TaskInfo>, env: Env) returns (pr: PipelineRun)
    ensures pr == Generated(infos, env)
  {
    hide TaskOf, OverrideOf;
    var byName := IndexOverrides(env.overrides);
    var tasks: seq<PipelineTask>, finally: seq<PipelineTask>, overrides: seq<TaskOverride> := [], [], [];
    for i := 0 to |infos|
      invariant tasks == Part(infos[..i], false, env) && finally == Part(infos[..i], true, env)
      invariant overrides == if env.cfg.preserve then Overrides(infos[..i], env.overrides) else []
    {
      assert infos[..i + 1][..i] == infos[..i];
      var t := infos[i];
      var pt := GeneratePipelineTask(t, Lookup(env, t.name), env.params, env.cfg, env.draws(i));
      if t.isFinally { finally := finally + [pt]; } else { tasks := tasks + [pt]; }
      if env.cfg.preserve && t.name in byName {
        var o := byName[t.name];
        OverrideNamed(env.overrides, t.name);
        if o.resources.Some? || |o.steps| > 0 {
          overrides := overrides + [TaskOverride(t.name, o.resources, o.steps, "")];
        }
      }
    }
    assert infos[..|infos|] == infos;
    pr := PipelineRun(Some(PipelineSpec(tasks, finally)), [], overrides);
  }

  lemma {:induction false} OverrideNamed(overrides: seq<TaskOverride>, name: string)
    ensures OverrideOf(overrides, name).Some? ==> OverrideOf(overrides, name).value.task == name
  {
    if overrides != [] { OverrideNamed(overrides[..|overrides| - 1], name); }
  }

  // ----- the generated run has the shape of the original -------------------------------

  lemma {:induction false} PartLeft(a: seq<TaskInfo>, b: seq<TaskInfo>, env: Env)
    requires forall x :: x in b ==> x.isFinally
    ensures Part(a + b, false, env) == Part(a, false, env)
  {
    hide TaskAt;
    if b == [] {
      assert a + b == a;
    } else {
      var n := |a + b| - 1;
      assert (a + b)[..n] == a + b[..|b| - 1] && (a + b)[n] == b[|b| - 1];
      PartLeft(a, b[..|b| - 1], env);
    }
  }

  lemma {:induction false} PartPure(a: seq<TaskInfo>, isFinally: bool, env: Env)
    requires forall x :: x in a ==> x.isFinally == isFinally
    ensures |Part(a, isFinally, env)| == |a| && Part(a, !isFinally, env) == []
    ensures forall i :: 0 <= i < |a| ==> Part(a, isFinally, env)[i] == TaskAt(a, i, env)
  {
    hide TaskOf;
    if a != [] {
      PartPure(a[..|a| - 1], isFinally, env);
    }
  }

  lemma {:induction false} PartRight(a: seq<TaskInfo>, b: seq<TaskInfo>, env: Env)
    requires forall x :: x in a ==> !x.isFinally
    requires forall x :: x in b ==> x.isFinally
    ensures |Part(a + b, true, env)| == |b|
    ensures forall i :: 0 <= i < |b| ==> Part(a + b, true, env)[i] == TaskAt(a + b, |a| + i, env)
  {
    hide TaskOf;
    if b == [] {
      assert a + b == a;
      PartPure(a, false, env);
    } else {
      var n := |a + b| - 1;
      assert (a + b)[..n] == a + b[..|b| - 1] && (a + b)[n] == b[|b| - 1];
      PartRight(a, b[..|b| - 1], env);
    }
  }

  /** `g` is generated from `t` for some draws. */
  ghost predicate Made(g: PipelineTask, t: PipelineTask, isFinally: bool, yamlSize: TaskSpec -> nat, env: Env) {
    var info := Info(t, isFinally, yamlSize);
    exists draws :: g == TaskOf(info, Lookup(env, t.name), env.params, env.cfg, draws)
  }

  lemma GeneratedTasks(pr: PipelineRun, yamlSize: TaskSpec -> nat, env: Env)
    requires pr.spec.Some?
    ensures var g := Generated(Infos(pr, yamlSize), env).spec.value;
            && |g.tasks| == |pr.spec.value.tasks| && |g.finally| == |pr.spec.value.finally|
            && (forall i :: 0 <= i < |g.tasks| ==> Made(g.tasks[i], pr.spec.value.tasks[i], false, yamlSize, env))
            && (forall i :: 0 <= i < |g.finally| ==> Made(g.finally[i], pr.spec.value.finally[i], true, yamlSize, env))
  {
    hide TaskOf, Part;
    var a, b := InfosOf(pr.spec.value.tasks, false, yamlSize), InfosOf(pr.spec.value.finally, true, yamlSize);
    PartLeft(a, b, env);
    PartPure(a, false, env);
    PartRight(a, b, env);
    var g := Generated(Infos(pr, yamlSize), env).spec.value;
    forall i | 0 <= i < |g.tasks| ensures Made(g.tasks[i], pr.spec.value.tasks[i], false, yamlSize, env) {
      assert g.tasks[i] == TaskAt(a, i, env);
    }
    forall i | 0 <= i < |g.finally| ensures Made(g.finally[i], pr.spec.value.finally[i], true, yamlSize, env) {
      assert g.finally[i] == TaskAt(a + b, |a| + i, env) && (a + b)[|a| + i] == b[i];
    }
  }

  /** `g` runs where `t` ran: same name, ordering constraints and matrix parameters, no
      bundle; the steps of an inline task keep their number and their names. */
  predicate Mirrors(g: PipelineTask, t: PipelineTask) {
    && g.name == t.name && g.runAfter == t.runAfter && g.ref.None? && g.spec.Some?
    && (g.matrix.Some? <==> t.matrix.Some?)
    && ParamNames(g.matrix) == ParamNames(t.matrix) == g.spec.value.params
    && (t.ref.None? && t.spec.Some? && t.spec.value.steps != [] ==>
          && |g.spec.value.steps| == |t.spec.value.steps|
          && forall i :: 0 <= i < |t.spec.value.steps| && t.spec.value.steps[i].name != "" ==>
               g.spec.value.steps[i].name == t.spec.value.steps[i].name)
  }

  lemma TaskMirrors(t: PipelineTask, isFinally: bool, yamlSize: TaskSpec -> nat, r: Option<ResolvedTask>,
                    params: seq<Param>, cfg: Config, draws: nat -> Draw)
    ensures Mirrors(TaskOf(Info(t, isFinally, yamlSize), r, params, cfg, draws), t)
  {
    hide PadScript, PerStep, RandomInt, ResolvedValue, Decimals.PrintInt;
    var info := Info(t, isFinally, yamlSize);
    var g, p := TaskOf(info, r, params, cfg, draws), PlanOf(info, r, cfg);
    assert ParamNames(g.matrix) == ParamNames(t.matrix);
    if t.ref.None? && t.spec.Some? && t.spec.value.steps != [] {
      assert TextOf([], "bundle") == "";
      assert p.names == StepNames(t.spec.value.steps) && p.steps == |t.spec.value.steps|;
      assert forall i :: 0 <= i < p.steps ==> g.spec.value.steps[i] == StepOf(p, i, cfg, draws(i));
    }
  }

  lemma MadeMirrors(g: PipelineTask, t: PipelineTask, isFinally: bool, yamlSize: TaskSpec -> nat, env: Env)
    requires Made(g, t, isFinally, yamlSize, env)
    ensures Mirrors(g, t)
  {
    hide TaskOf, Info, Mirrors;
    var draws :| g == TaskOf(Info(t, isFinally, yamlSize), Lookup(env, t.name), env.params, env.cfg, draws);
    TaskMirrors(t, isFinally, yamlSize, Lookup(env, t.name), env.params, env.cfg, draws);
  }

  /** The load test has the tasks of the pipeline, in order, on the same side of the
      finally split. */
  lemma GenerateKeepsPipeline(pr: PipelineRun, yamlSize: TaskSpec -> nat, env: Env)
    requires pr.spec.Some?
    ensures var g := Generated(Infos(pr, yamlSize), env).spec.value;
            && |g.tasks| == |pr.spec.value.tasks| && |g.finally| == |pr.spec.value.finally|
            && (forall i :: 0 <= i < |g.tasks| ==> Mirrors(g.tasks[i], pr.spec.value.tasks[i]))
            && (forall i :: 0 <= i < |g.finally| ==> Mirrors(g.finally[i], pr.spec.value.finally[i]))
  {
    hide Part, Mirrors, Made, Infos;
    GeneratedTasks(pr, yamlSize, env);
    var g := Generated(Infos(pr, yamlSize), env).spec.value;
    forall i | 0 <= i < |g.tasks| ensures Mirrors(g.tasks[i], pr.spec.value.tasks[i]) {
      MadeMirrors(g.tasks[i], pr.spec.value.tasks[i], false, yamlSize, env);
    }
    forall i | 0 <= i < |g.finally| ensures Mirrors(g.finally[i], pr.spec.value.finally[i]) {
      MadeMirrors(g.finally[i], pr.spec.value.finally[i], true, yamlSize, env);
    }
  }

  /** The steps of a task come from its own spec or from what its name was resolved to. */
  predicate Stepped(g: PipelineTask, t: PipelineTask, isFinally: bool, yamlSize: TaskSpec -> nat, env: Env) {
    && g.spec.Some?
    && ComeFrom(g.spec.value.steps, Info(t, isFinally, yamlSize),
                if t.name in env.resolved then Some(env.resolved[t.name]) else None, env.cfg)
  }

  lemma MadeSteps(g: PipelineTask, t: PipelineTask, isFinally: bool, yamlSize: TaskSpec -> nat, env: Env)
    requires Made(g, t, isFinally, yamlSize, env)
    ensures Stepped(g, t, isFinally, yamlSize, env)
  {
    hide TaskOf, Info, ComeFrom;
    var draws :| g == TaskOf(Info(t, isFinally, yamlSize), Lookup(env, t.name), env.params, env.cfg, draws);
    TaskSteps(Info(t, isFinally, yamlSize), Lookup(env, t.name), env.params, env.cfg, draws);
    TaskFrame(Info(t, isFinally, yamlSize), Lookup(env, t.name), env.params, env.cfg, draws);
  }

  /** Every task of the load test, finally tasks included, gets its steps from its own bundle. */
  lemma GeneratedSteps(pr: PipelineRun, yamlSize: TaskSpec -> nat, env: Env)
    requires pr.spec.Some?
    ensures var g, p := Generated(Infos(pr, yamlSize), env).spec.value, pr.spec.value;
            && |g.tasks| == |p.tasks| && |g.finally| == |p.finally|
            && (forall i :: 0 <= i < |g.tasks| ==> Stepped(g.tasks[i], p.tasks[i], false, yamlSize, env))
            && (forall i :: 0 <= i < |g.finally| ==> Stepped(g.finally[i], p.finally[i], true, yamlSize, env))
  {
    hide Part, Made, Infos, Stepped;
    GeneratedTasks(pr, yamlSize, env);
    var g, p := Generated(Infos(pr, yamlSize), env).spec.value, pr.spec.value;
    forall i | 0 <= i < |g.tasks| ensures Stepped(g.tasks[i], p.tasks[i], false, yamlSize, env) {
      MadeSteps(g.tasks[i], p.tasks[i], false, yamlSize, env);
    }
    forall i | 0 <= i < |g.finally| ensures Stepped(g.finally[i], p.finally[i], true, yamlSize, env) {
      MadeSteps(g.finally[i], p.finally[i], true, yamlSize, env);
    }
  }

  // ----- generating again ---------------------------------------------------------------

  /** A task without the scripts of its steps. */
  function Outline(t: PipelineTask): PipelineTask {
    if t.spec.None? then t
    else
      var steps := t.spec.value.steps;
      t.(spec := Some(TaskSpec(
        seq(|steps|, i requires 0 <= i < |steps| => steps[i].(script := "")), t.spec.value.params)))
  }

  function Outlines(ts: seq<PipelineTask>): seq<PipelineTask> {
    seq(|ts|, i requires 0 <= i < |ts| => Outline(ts[i]))
  }

  function OutlineRun(pr: PipelineRun): PipelineRun {
    if pr.spec.None? then pr
    else pr.(spec := Some(PipelineSpec(Outlines(pr.spec.value.tasks), Outlines(pr.spec.value.finally))))
  }

  lemma StepNameAgain(p: Plan, q: Plan, i: nat)
    requires i < |q.names| && q.names[i] == StepName(p, i)
    ensures StepName(q, i) == StepName(p, i)
  {
    hide Decimals.PrintInt;
  }

  lemma StepsAgain(p: Plan, cfg: Config, draws: nat -> Draw, q: Plan, more: nat -> Draw)
    requires p.steps >= 1 && q.steps == p.steps
    requires q.names == StepNames(StepsOf(p, p.steps, cfg, draws))
    requires q.resources == StepResources(StepsOf(p, p.steps, cfg, draws))
    ensures forall i :: 0 <= i < p.steps ==>
              StepsOf(q, q.steps, cfg, more)[i].(script := "") == StepsOf(p, p.steps, cfg, draws)[i].(script := "")
  {
    hide PadScript, StepName, PerStep;
    forall i | 0 <= i < p.steps
      ensures StepsOf(q, q.steps, cfg, more)[i].(script := "") == StepsOf(p, p.steps, cfg, draws)[i].(script := "")
    {
      assert StepsOf(q, q.steps, cfg, more)[i] == StepOf(q, i, cfg, more(i));
      assert StepsOf(p, p.steps, cfg, draws)[i] == StepOf(p, i, cfg, draws(i));
      StepNameAgain(p, q, i);
    }
  }

  /** A generated task, generated again without array parameters, differs at most in its
      scripts: whatever the bundle results, the serialised size and the draws. */
  lemma TaskAgain(t: TaskInfo, r: Option<ResolvedTask>, params: seq<Param>, cfg: Config, draws: nat -> Draw,
                  isFinally: bool, yamlSize: TaskSpec -> nat, s: Option<ResolvedTask>, more: nat -> Draw)
    ensures var g := TaskOf(t, r, params, cfg, draws);
            Outline(TaskOf(Info(g, isFinally, yamlSize), s, [], cfg, more)) == Outline(g)
  {
    hide StepsOf, ResolvedMatrix, PerStep;
    var g := TaskOf(t, r, params, cfg, draws);
    var info := Info(g, isFinally, yamlSize);
    var p, q := PlanOf(t, r, cfg), PlanOf(info, s, cfg);
    StepsLength(p, p.steps, cfg, draws);
    StepsLength(q, q.steps, cfg, more);
    assert TextOf([], "bundle") == "";
    assert q.steps == p.steps && q.names == info.stepNames && q.resources == info.stepResources;
    StepsAgain(p, cfg, draws, q, more);
    if g.matrix.Some? { ResolvedAlone(g.matrix.value); }
    var h := TaskOf(info, s, [], cfg, more);
    assert Outline(h).spec.value.steps == Outline(g).spec.value.steps;
  }

  lemma StepsLength(p: Plan, n: nat, cfg: Config, draws: nat -> Draw)
    requires p.steps >= 1
    ensures |StepsOf(p, n, cfg, draws)| == n
  {
  }

  lemma MadeAgain(h: PipelineTask, g: PipelineTask, t: PipelineTask, isFinally: bool, yamlSize: TaskSpec -> nat,
                  env: Env, again: Env)
    requires Made(g, t, isFinally, yamlSize, env) && Made(h, g, isFinally, yamlSize, again)
    requires again.params == [] && again.cfg == env.cfg
    ensures Outline(h) == Outline(g)
  {
    hide TaskOf, Outline, Info;
    var draws :| g == TaskOf(Info(t, isFinally, yamlSize), Lookup(env, t.name), env.params, env.cfg, draws);
    var more :| h == TaskOf(Info(g, isFinally, yamlSize), Lookup(again, g.name), again.params, again.cfg, more);
    TaskAgain(Info(t, isFinally, yamlSize), Lookup(env, t.name), env.params, env.cfg, draws,
              isFinally, yamlSize, Lookup(again, g.name), more);
  }

  // ----- overrides ----------------------------------------------------------------------

  lemma {:induction false} OverrideAppend(a: seq<TaskOverride>, b: seq<TaskOverride>, name: string)
    requires |b| <= 1
    ensures OverrideOf(a + b, name) == if b != [] && b[0].task == name then Some(b[0]) else OverrideOf(a, name)
  {
    if b == [] {
      assert a + b == a;
    } else {
      assert (a + b)[..|a + b| - 1] == a;
    }
  }

  /** The last override of the name is the one that counts. */
  lemma {:induction false} OverrideOfLast(overrides: seq<TaskOverride>, name: string, i: nat)
    requires i < |overrides| && overrides[i].task == name
    requires forall j :: i < j < |overrides| ==> overrides[j].task != name
    ensures OverrideOf(overrides, name) == Some(overrides[i])
  {
    if i < |overrides| - 1 { OverrideOfLast(overrides[..|overrides| - 1], name, i); }
  }

  /** What is forwarded for a task that was generated: the resources of its override, of the
      task and of its steps, under its name; nothing if there are none, or none are preserved. */
  lemma ForwardedExact(infos: seq<TaskInfo>, env: Env, name: string)
    requires exists t :: t in infos && t.name == name
    ensures var found := OverrideOf(Generated(infos, env).overrides, name);
            var given := OverrideOf(env.overrides, name);
            if !env.cfg.preserve || given.None? || (given.value.resources.None? && given.value.steps == [])
            then found.None?
            else found == Some(TaskOverride(name, given.value.resources, given.value.steps, ""))
  {
    hide Part, OverrideOf;
    NoOverride();
    ForwardedFound(infos, env.overrides, name);
    OverrideNamed(env.overrides, name);
  }

  /** Forwarding is faithful: a task's forwarded entry is found again under its name. */
  lemma {:induction false} ForwardedFound(infos: seq<TaskInfo>, overrides: seq<TaskOverride>, name: string)
    ensures OverrideOf(Overrides(infos, overrides), name) ==
            if (exists t :: t in infos && t.name == name) && Forwarded(OverrideOf(overrides, name)) != []
            then Some(Forwarded(OverrideOf(overrides, name))[0]) else None
  {
    hide OverrideOf;
    if infos == [] {
      NoOverride();
    } else {
      var n := |infos| - 1;
      ForwardedFound(infos[..n], overrides, name);
      OverrideNamed(overrides, infos[n].name);
      OverrideAppend(Overrides(infos[..n], overrides), Forwarded(OverrideOf(overrides, infos[n].name)), name);
      assert infos == infos[..n] + [infos[n]];
    }
  }

  lemma NoOverride()
    ensures forall n :: OverrideOf([], n) == None
  {
  }

  predicate SameNames(a: seq<TaskInfo>, b: seq<TaskInfo>) {
    |a| == |b| && forall i :: 0 <= i < |a| ==> a[i].name == b[i].name
  }

  lemma {:induction false} OverridesAgain(all: seq<TaskInfo>, a: seq<TaskInfo>, b: seq<TaskInfo>,
                                          overrides: seq<TaskOverride>)
    requires SameNames(a, b) && forall t :: t in a ==> t in all
    ensures Overrides(b, Overrides(all, overrides)) == Overrides(a, overrides)
    decreases |a|
  {
    hide OverrideOf;
    if a != [] {
      var n := |a| - 1;
      OverridesAgain(all, a[..n], b[..n], overrides);
      assert a[n] in all;
      ForwardedFound(all, overrides, a[n].name);
    }
  }

  /** The names of the tasks survive, in their order. */
  lemma NamesAgain(pr: PipelineRun, yamlSize: TaskSpec -> nat, env: Env)
    requires pr.spec.Some?
    ensures SameNames(Infos(pr, yamlSize), Infos(Generated(Infos(pr, yamlSize), env), yamlSize))
  {
    hide Part, TaskOf, TextOf, StepNames, StepResources;
    GenerateKeepsPipeline(pr, yamlSize, env);
  }

  lemma GenerateTwiceInline(pr: PipelineRun, yamlSize: TaskSpec -> nat, env: Env, again: Env)
    requires pr.spec.Some?
    requires var g := Generated(Infos(pr, yamlSize), env);
             again.params == g.params && again.overrides == g.overrides && again.cfg == env.cfg
    ensures var g := Generated(Infos(pr, yamlSize), env);
            OutlineRun(Generated(Infos(g, yamlSize), again)) == OutlineRun(g)
  {
    hide Part, TaskOf, Outline, Info, Made, Overrides;
    var infos := Infos(pr, yamlSize);
    var g := Generated(infos, env);
    var h := Generated(Infos(g, yamlSize), again);
    GeneratedTasks(pr, yamlSize, env);
    GeneratedTasks(g, yamlSize, again);
    forall i | 0 <= i < |g.spec.value.tasks|
      ensures Outline(h.spec.value.tasks[i]) == Outline(g.spec.value.tasks[i])
    {
      MadeAgain(h.spec.value.tasks[i], g.spec.value.tasks[i], pr.spec.value.tasks[i], false, yamlSize, env, again);
    }
    forall i | 0 <= i < |g.spec.value.finally|
      ensures Outline(h.spec.value.finally[i]) == Outline(g.spec.value.finally[i])
    {
      MadeAgain(h.spec.value.finally[i], g.spec.value.finally[i], pr.spec.value.finally[i], true, yamlSize, env, again);
    }
    assert Outlines(h.spec.value.tasks) == Outlines(g.spec.value.tasks);
    assert Outlines(h.spec.value.finally) == Outlines(g.spec.value.finally);
    NamesAgain(pr, yamlSize, env);
    OverridesAgain(infos, infos, Infos(g, yamlSize), env.overrides);
  }

  /** Generating is idempotent up to the scripts: the load test of a load test has the
      same tasks, order, constraints, steps, resources, matrices and overrides. */
  lemma GenerateTwice(pr: PipelineRun, yamlSize: TaskSpec -> nat, env: Env, again: Env)
    requires var g := Generated(Infos(pr, yamlSize), env);
             again.params == g.params && again.overrides == g.overrides && again.cfg == env.cfg
    ensures var g := Generated(Infos(pr, yamlSize), env);
            OutlineRun(Generated(Infos(g, yamlSize), again)) == OutlineRun(g)
  {
    hide Part, TaskOf, Overrides, Info, Outline;
    if pr.spec.Some? {
      GenerateTwiceInline(pr, yamlSize, env, again);
    } else {
      NothingGenerated(env);
      NothingGenerated(again);
      assert Infos(Generated([], env), yamlSize) == [];
    }
  }

  lemma NothingGenerated(env: Env)
    ensures Generated([], env) == PipelineRun(Some(PipelineSpec([], [])), [], [])
  {
  }
}
