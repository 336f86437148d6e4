/** The job table from the command line: every change refuses or leaves a table that every
    reader can use. */
module JobTable {
  import opened Base
  import opened Text
  import opened Cron
  import opened Jobs

  const MAX_JOBS := 32
  const MAX_PROMPT := 16384
  const MAX_CAP := 100000

  /** What the commands ask of the system around them: where a path really leads and where
      jobs may work, which assistants are installed, and the names a `needs` value lists. */
  datatype Env = Env(resolve: string -> string, root: string, installed: set<string>,
                     needs: string -> Option<seq<string>>)

  type Flags = map<string, string>

  function FlagNames(): set<string> {
    {"cron", "prompt", "cwd", "backend", "notify", "session", "cap", "needs"}
  }

  function FlagsFrom(argv: seq<string>, known: Flags): Option<Flags>
    decreases |argv|
  {
    if argv == [] then Some(known)
    else if !("--" <= argv[0]) || argv[0][2..] !in FlagNames() || |argv| == 1 then None
    else FlagsFrom(argv[2..], known[argv[0][2..] := argv[1]])
  }

  /** `parse_flags`: `--k v` pairs, unknown or dangling ones refused. */
  method ReadFlags(argv: seq<string>) returns (r: Option<Flags>)
    ensures r == FlagsFrom(argv, map[])
  {
    hide FlagNames;
    var out: Flags := map[];
    var i := 0;
    while i < |argv|
      invariant i <= |argv|
      invariant FlagsFrom(argv, map[]) == FlagsFrom(argv[i..], out)
      decreases |argv| - i
    {
      var a := argv[i];
      if !("--" <= a) || a[2..] !in FlagNames() { return None; }
      if i + 1 >= |argv| { return None; }
      assert argv[i..][2..] == argv[i + 2..];
      out := out[a[2..] := argv[i + 1]];
      i := i + 2;
    }
    r := Some(out);
  }

  // ---- one job ----

  function CronOf(was: string, flags: Flags, new_: bool): Option<string> {
    if "cron" in flags || new_ then
      var s := ParseForJob(if "cron" in flags then Some(flags["cron"]) else None, new_);
      if s.None? then None else Some(s.value.text)
    else Some(was)
  }

  function PromptOf(was: string, flags: Flags, new_: bool): Option<string> {
    if "prompt" in flags || new_ then
      var p := if "prompt" in flags then flags["prompt"] else "";
      if Strip(p) == "" || |p| > MAX_PROMPT then None else Some(Strip(p))
    else Some(was)
  }

  predicate Under(dir: string, root: string) {
    dir == root || root + "/" <= dir
  }

  function CwdOf(was: string, flags: Flags, env: Env): Option<string> {
    if "cwd" in flags then
      var dir := Strip(flags["cwd"]);
      if dir == "" then Some("")
      else if !Under(env.resolve(dir), env.resolve(env.root)) || (exists c :: c in dir && c in "\n\r\0'\"") then None
      else Some(env.resolve(dir))
    else Some(was)
  }

  predicate Assistant(b: string) {
    b == "claude" || b == "hermes"
  }

  function BackendOf(was: string, flags: Flags, env: Env): Option<string> {
    if "backend" in flags then
      var b := Strip(flags["backend"]);
      if !Assistant(b) || b !in env.installed then None else Some(b)
    else Some(was)
  }

  function CapOf(was: Option<int>, flags: Flags): Option<Option<int>> {
    if "cap" in flags then
      var c := Lowered(Strip(flags["cap"]));
      if c == "none" || c == "0" || c == "" then Some(None)
      else if !IsDigits(c) || !(1 <= ToInt(c) <= MAX_CAP) then None
      else Some(Some(ToInt(c)))
    else Some(was)
  }

  function NeedsOf(was: seq<string>, flags: Flags, env: Env): Option<seq<string>> {
    if "needs" in flags then env.needs(flags["needs"]) else Some(was)
  }

  function NotifyOf(was: bool, flags: Flags): Option<bool> {
    if "notify" in flags then
      var v := Lowered(Strip(flags["notify"]));
      if v == "on" || v == "true" || v == "1" then Some(true)
      else if v == "off" || v == "false" || v == "0" then Some(false)
      else None
    else Some(was)
  }

  function SessionOf(was: Session, flags: Flags): Option<Session> {
    if "session" in flags then
      if flags["session"] == "fresh" then Some(FreshSession)
      else if flags["session"] == "continue" then Some(ContinueSession)
      else None
    else Some(was)
  }

  /** The job with the flags in it; a value any field refuses refuses them all. */
  function Applied(j: Job, flags: Flags, new_: bool, env: Env): Option<Job> {
    var cron, prompt, cwd := CronOf(j.cron, flags, new_), PromptOf(j.prompt, flags, new_), CwdOf(j.cwd, flags, env);
    var backend, cap, needs := BackendOf(j.backend, flags, env), CapOf(j.cap, flags), NeedsOf(j.needs, flags, env);
    var notify, session := NotifyOf(j.notify, flags), SessionOf(j.session, flags);
    if cron.None? || prompt.None? || cwd.None? || backend.None? || cap.None? || needs.None? || notify.None? || session.None?
    then None
    else Some(Job(j.name, cron.value, prompt.value, cwd.value, backend.value, notify.value, j.enabled, session.value,
                  cap.value, needs.value))
  }

  /** `apply`: field by field, up to the first refusal. */
  method Apply(before: Job, flags: Flags, new_: bool, env: Env) returns (r: Option<Job>)
    ensures r == Applied(before, flags, new_, env)
  {
    hide CronOf, PromptOf, CwdOf, BackendOf, CapOf, NeedsOf, NotifyOf, SessionOf;
    var job := before;
    var cron := CronOf(job.cron, flags, new_);
    if cron.None? { return None; }
    job := job.(cron := cron.value);
    var prompt := PromptOf(job.prompt, flags, new_);
    if prompt.None? { return None; }
    job := job.(prompt := prompt.value);
    var cwd := CwdOf(job.cwd, flags, env);
    if cwd.None? { return None; }
    job := job.(cwd := cwd.value);
    var backend := BackendOf(job.backend, flags, env);
    if backend.None? { return None; }
    job := job.(backend := backend.value);
    var cap := CapOf(job.cap, flags);
    if cap.None? { return None; }
    job := job.(cap := cap.value);
    var needs := NeedsOf(job.needs, flags, env);
    if needs.None? { return None; }
    job := job.(needs := needs.value);
    var notify := NotifyOf(job.notify, flags);
    if notify.None? { return None; }
    job := job.(notify := notify.value);
    var session := SessionOf(job.session, flags);
    if session.None? { return None; }
    r := Some(job.(session := session.value));
  }

  // ---- the table ----

  predicate NameChar(c: char) {
    'a' <= c <= 'z' || '0' <= c <= '9' || c == '-'
  }

  predicate GoodName(n: string) {
    1 <= |n| <= 32 && n[0] != '-' && forall c :: c in n ==> NameChar(c)
  }

  /** The schedule's text reads back as itself. */
  predicate Readable(cron: string) {
    Parse(cron).Some? && Parse(cron).value.text == cron
  }

  predicate GoodJob(j: Job, env: Env) {
    && GoodName(j.name) && Readable(j.cron)
    && 1 <= |j.prompt| <= MAX_PROMPT
    && (j.cwd == "" || Under(j.cwd, env.resolve(env.root)))
    && Assistant(j.backend)
    && (j.cap.Some? ==> 1 <= j.cap.value <= MAX_CAP)
  }

  /** What every reader may rely on. */
  predicate Sound(jobs: seq<Job>, env: Env) {
    |jobs| <= MAX_JOBS && NamesUnique(jobs) && forall j :: j in jobs ==> GoodJob(j, env)
  }

  function IndexOf(jobs: seq<Job>, name: string): (i: nat)
    ensures i <= |jobs|
    ensures i < |jobs| ==> jobs[i].name == name
    ensures forall k :: 0 <= k < i ==> jobs[k].name != name
  {
    if jobs == [] || jobs[0].name == name then 0 else 1 + IndexOf(jobs[1..], name)
  }

  function Tidied(arg: string): string {
    Lowered(Strip(arg))
  }

  function NewJob(name: string): Job {
    Job(name, "", "", "", "claude", true, true, FreshSession, None, [])
  }

  function AddSet(jobs: seq<Job>, argv: seq<string>, new_: bool, env: Env): Option<seq<Job>> {
    if argv == [] || !GoodName(Tidied(argv[0])) then None
    else
      var name, flags := Tidied(argv[0]), FlagsFrom(argv[1..], map[]);
      var i := IndexOf(jobs, name);
      if flags.None? || (new_ && (i < |jobs| || |jobs| >= MAX_JOBS)) || (!new_ && i == |jobs|) then None
      else
        var j := Applied(if new_ then NewJob(name) else jobs[i], flags.value, new_, env);
        if j.None? then None else Some(if new_ then jobs + [j.value] else jobs[i := j.value])
  }

  /** All but the jobs of that name. */
  function Without(jobs: seq<Job>, name: string): (r: seq<Job>)
    ensures |r| <= |jobs|
  {
    if jobs == [] then []
    else Without(jobs[..|jobs| - 1], name) + if jobs[|jobs| - 1].name != name then [jobs[|jobs| - 1]] else []
  }

  function FirstArg(argv: seq<string>): string {
    if argv == [] then "" else Tidied(argv[0])
  }

  function Remove(jobs: seq<Job>, argv: seq<string>): Option<seq<Job>> {
    var keep := Without(jobs, FirstArg(argv));
    if |keep| == |jobs| then None else Some(keep)
  }

  function Toggle(jobs: seq<Job>, argv: seq<string>, on: bool): Option<seq<Job>> {
    var i := IndexOf(jobs, FirstArg(argv));
    if i == |jobs| then None else Some(jobs[i := jobs[i].(enabled := on)])
  }

  datatype Command = Add(argv: seq<string>) | Set(argv: seq<string>) | Rm(argv: seq<string>) | Enable(argv: seq<string>)
                   | Disable(argv: seq<string>)

  function Do(jobs: seq<Job>, c: Command, env: Env): Option<seq<Job>> {
    match c
    case Add(argv) => AddSet(jobs, argv, true, env)
    case Set(argv) => AddSet(jobs, argv, false, env)
    case Rm(argv) => Remove(jobs, argv)
    case Enable(argv) => Toggle(jobs, argv, true)
    case Disable(argv) => Toggle(jobs, argv, false)
  }

  /** The table file. */
  class Table {
    var jobs: seq<Job>

    constructor ()
      ensures jobs == []
    {
      jobs := [];
    }

    method Find(name: string) returns (i: nat)
      ensures i == IndexOf(jobs, name)
    {
      i := 0;
      while i < |jobs|
        invariant i <= |jobs| && IndexOf(jobs, name) == i + IndexOf(jobs[i..], name)
        decreases |jobs| - i
      {
        if jobs[i].name == name { return; }
        assert jobs[i..][1..] == jobs[i + 1..];
        i := i + 1;
      }
    }

    /** `cmd_add_set`: a refusal leaves the table as it was. */
    method AddOrSet(argv: seq<string>, new_: bool, env: Env) returns (done: bool)
      modifies this
      ensures done == AddSet(old(jobs), argv, new_, env).Some?
      ensures jobs == if done then AddSet(old(jobs), argv, new_, env).value else old(jobs)
    {
      hide Applied, GoodName, Tidied, FlagsFrom, NewJob;
      if argv == [] { return false; }
      var name := Tidied(argv[0]);
      if !GoodName(name) { return false; }
      var flags := ReadFlags(argv[1..]);
      if flags.None? { return false; }
      var i := Find(name);
      if new_ && i < |jobs| { return false; }
      if !new_ && i == |jobs| { return false; }
      if new_ && |jobs| >= MAX_JOBS { return false; }
      var job := Apply(if new_ then NewJob(name) else jobs[i], flags.value, new_, env);
      if job.None? { return false; }
      jobs := if new_ then jobs + [job.value] else jobs[i := job.value];
      done := true;
    }

    /** `cmd_rm`. */
    method Rm(argv: seq<string>) returns (done: bool)
      modifies this
      ensures done == Remove(old(jobs), argv).Some?
      ensures jobs == if done then Remove(old(jobs), argv).value else old(jobs)
    {
      hide FirstArg;
      var name := FirstArg(argv);
      var keep: seq<Job> := [];
      for i := 0 to |jobs|
        invariant keep == Without(jobs[..i], name) && jobs == old(jobs)
      {
        assert jobs[..i + 1][..i] == jobs[..i];
        if jobs[i].name != name { keep := keep + [jobs[i]]; }
      }
      assert jobs[..|jobs|] == jobs;
      if |keep| == |jobs| { return false; }
      jobs := keep;
      done := true;
    }

    /** `cmd_toggle`. */
    method SetEnabled(argv: seq<string>, on: bool) returns (done: bool)
      modifies this
      ensures done == Toggle(old(jobs), argv, on).Some?
      ensures jobs == if done then Toggle(old(jobs), argv, on).value else old(jobs)
    {
      hide FirstArg;
      var i := Find(FirstArg(argv));
      if i == |jobs| { return false; }
      jobs := jobs[i := jobs[i].(enabled := on)];
      done := true;
    }
  }

  // ---- what every change keeps ----

  /** Only what was named changes; the name and `enabled` never do. */
  predicate Framed(j: Job, k: Job, flags: Flags, new_: bool) {
    && k.name == j.name && k.enabled == j.enabled
    && ("cron" in flags || new_ || k.cron == j.cron)
    && ("prompt" in flags || new_ || k.prompt == j.prompt)
    && ("cwd" in flags || k.cwd == j.cwd)
    && ("backend" in flags || k.backend == j.backend)
    && ("cap" in flags || k.cap == j.cap)
    && ("needs" in flags || k.needs == j.needs)
    && ("notify" in flags || k.notify == j.notify)
    && ("session" in flags || k.session == j.session)
  }

  /** A job before `apply` reaches its schedule and prompt: new, or already good. */
  predicate Ready(j: Job, new_: bool, env: Env) {
    if new_ then GoodName(j.name) && j.cwd == "" && Assistant(j.backend) && j.cap == None else GoodJob(j, env)
  }

  lemma CronGood(was: string, flags: Flags, new_: bool)
    requires new_ || Readable(was)
    ensures CronOf(was, flags, new_).Some? ==> Readable(CronOf(was, flags, new_).value)
  {
    hide Parse, ParseForJob;
    ParseForJobKeeps(if "cron" in flags then Some(flags["cron"]) else None, new_);
  }

  /** `set` changes only what its flags name. */
  lemma ApplyFrames(j: Job, flags: Flags, new_: bool, env: Env)
    ensures Applied(j, flags, new_, env).Some? ==> Framed(j, Applied(j, flags, new_, env).value, flags, new_)
  {
    hide ParseForJob, Strip, Under, Assistant, Lowered, IsDigits, ToInt;
  }

  lemma ApplyGood(j: Job, flags: Flags, new_: bool, env: Env)
    requires Ready(j, new_, env) && Applied(j, flags, new_, env).Some?
    ensures GoodJob(Applied(j, flags, new_, env).value, env)
    ensures Applied(j, flags, new_, env).value.name == j.name
  {
    hide Readable, GoodName, CronOf, NeedsOf, NotifyOf, SessionOf, Under, Assistant, IsDigits, ToInt, Lowered, Strip;
    CronGood(j.cron, flags, new_);
  }

  lemma {:induction false} WithoutHas(jobs: seq<Job>, name: string)
    ensures forall j :: j in Without(jobs, name) <==> j in jobs && j.name != name
  {
    if jobs != [] {
      var most, last := jobs[..|jobs| - 1], jobs[|jobs| - 1];
      WithoutHas(most, name);
      assert jobs == most + [last];
    }
  }

  /** Nothing is filtered exactly when no job has the name. */
  lemma {:induction false} WithoutAll(jobs: seq<Job>, name: string)
    ensures |Without(jobs, name)| == |jobs| <==> forall j :: j in jobs ==> j.name != name
    ensures |Without(jobs, name)| == |jobs| ==> Without(jobs, name) == jobs
  {
    if jobs != [] {
      var most, last := jobs[..|jobs| - 1], jobs[|jobs| - 1];
      WithoutAll(most, name);
      assert jobs == most + [last];
    }
  }

  lemma {:induction false} WithoutUnique(jobs: seq<Job>, name: string)
    requires NamesUnique(jobs)
    ensures NamesUnique(Without(jobs, name))
  {
    if jobs != [] {
      var most, last := jobs[..|jobs| - 1], jobs[|jobs| - 1];
      WithoutUnique(most, name);
      WithoutHas(most, name);
      assert forall j :: j in most ==> j.name != last.name;
    }
  }

  lemma SetSound(jobs: seq<Job>, i: nat, j: Job, env: Env)
    requires Sound(jobs, env) && i < |jobs| && j.name == jobs[i].name && GoodJob(j, env)
    ensures Sound(jobs[i := j], env)
  {
    hide GoodJob;
  }

  lemma AppendSound(jobs: seq<Job>, j: Job, env: Env)
    requires Sound(jobs, env) && |jobs| < MAX_JOBS && IndexOf(jobs, j.name) == |jobs| && GoodJob(j, env)
    ensures Sound(jobs + [j], env)
  {
    hide GoodJob, IndexOf;
  }

  lemma NewReady(name: string, env: Env)
    requires GoodName(name)
    ensures Ready(NewJob(name), true, env) && NewJob(name).name == name
  {
    hide GoodName;
  }

  lemma AddSetSound(jobs: seq<Job>, argv: seq<string>, new_: bool, env: Env)
    requires Sound(jobs, env) && AddSet(jobs, argv, new_, env).Some?
    ensures Sound(AddSet(jobs, argv, new_, env).value, env)
  {
    hide Applied, GoodName, Tidied, FlagsFrom, NewJob, IndexOf, GoodJob, Sound;
    var name, flags := Tidied(argv[0]), FlagsFrom(argv[1..], map[]).value;
    var i := IndexOf(jobs, name);
    if new_ {
      NewReady(name, env);
      ApplyGood(NewJob(name), flags, true, env);
      AppendSound(jobs, Applied(NewJob(name), flags, true, env).value, env);
    } else {
      MemberGood(jobs, i, env);
      ApplyGood(jobs[i], flags, false, env);
      SetSound(jobs, i, Applied(jobs[i], flags, false, env).value, env);
    }
  }

  lemma MemberGood(jobs: seq<Job>, i: nat, env: Env)
    requires Sound(jobs, env) && i < |jobs|
    ensures GoodJob(jobs[i], env)
  {
    hide GoodJob;
  }

  /** Every command that is not refused leaves a sound table. */
  lemma DoSound(jobs: seq<Job>, c: Command, env: Env)
    requires Sound(jobs, env) && Do(jobs, c, env).Some?
    ensures Sound(Do(jobs, c, env).value, env)
  {
    hide AddSet, FirstArg, GoodJob, IndexOf;
    match c
    case Add(argv) => AddSetSound(jobs, argv, true, env);
    case Set(argv) => AddSetSound(jobs, argv, false, env);
    case Rm(argv) =>
      WithoutUnique(jobs, FirstArg(argv));
      WithoutHas(jobs, FirstArg(argv));
    case Enable(argv) => ToggleSound(jobs, argv, true, env);
    case Disable(argv) => ToggleSound(jobs, argv, false, env);
  }

  lemma ToggleSound(jobs: seq<Job>, argv: seq<string>, on: bool, env: Env)
    requires Sound(jobs, env) && Toggle(jobs, argv, on).Some?
    ensures Sound(Toggle(jobs, argv, on).value, env)
  {
    hide FirstArg, IndexOf, Sound, Readable, GoodName, Assistant, Under;
    var i := IndexOf(jobs, FirstArg(argv));
    MemberGood(jobs, i, env);
    SetSound(jobs, i, jobs[i].(enabled := on), env);
  }

  /** The table after a run of commands, each refused one changing nothing. */
  function DoAll(jobs: seq<Job>, cs: seq<Command>, env: Env): seq<Job>
    decreases |cs|
  {
    if cs == [] then jobs
    else DoAll(if Do(jobs, cs[0], env).Some? then Do(jobs, cs[0], env).value else jobs, cs[1..], env)
  }

  /** Every table the commands can reach has unique names, at most 32 jobs, and schedules that
      parse to their own text, so a tick skips none of them as bad. */
  lemma {:induction false} ReachableIsSound(jobs: seq<Job>, cs: seq<Command>, env: Env)
    requires Sound(jobs, env)
    ensures Sound(DoAll(jobs, cs, env), env)
    ensures forall j :: j in DoAll(jobs, cs, env) ==> Parse(j.cron).Some? && Parse(j.cron).value.text == j.cron
    decreases |cs|
  {
    if cs == [] {
      hide Parse, GoodName, Under, Assistant;
    } else {
      hide Do, GoodJob, Parse, Sound;
      if Do(jobs, cs[0], env).Some? { DoSound(jobs, cs[0], env); }
      ReachableIsSound(if Do(jobs, cs[0], env).Some? then Do(jobs, cs[0], env).value else jobs, cs[1..], env);
    }
  }

  lemma EmptyIsSound(env: Env)
    ensures Sound([], env)
  {
  }

  // ---- what one command leaves alone, and undoes ----

  function Subject(c: Command): string {
    FirstArg(c.argv)
  }

  lemma {:induction false} WithoutUpdate(jobs: seq<Job>, i: nat, j: Job, name: string)
    requires i < |jobs| && jobs[i].name == j.name == name
    ensures Without(jobs[i := j], name) == Without(jobs, name)
  {
    var most, last := jobs[..|jobs| - 1], jobs[|jobs| - 1];
    if i < |jobs| - 1 {
      assert jobs[i := j][..|jobs| - 1] == most[i := j];
      WithoutUpdate(most, i, j, name);
    } else {
      assert jobs[i := j][..|jobs| - 1] == most;
    }
  }

  lemma {:induction false} WithoutTwice(jobs: seq<Job>, name: string)
    ensures Without(Without(jobs, name), name) == Without(jobs, name)
  {
    WithoutHas(jobs, name);
    WithoutAll(Without(jobs, name), name);
  }

  lemma WithoutAppend(jobs: seq<Job>, j: Job)
    ensures Without(jobs + [j], j.name) == Without(jobs, j.name)
  {
    assert (jobs + [j])[..|jobs + [j]| - 1] == jobs;
  }

  /** A command touches no job but the one it names: the others stay, in their order. */
  lemma OthersStay(jobs: seq<Job>, c: Command, env: Env)
    requires Do(jobs, c, env).Some?
    ensures Without(Do(jobs, c, env).value, Subject(c)) == Without(jobs, Subject(c))
  {
    hide Applied, GoodName, Tidied, FlagsFrom, IndexOf, Without;
    var name := Subject(c);
    var i := IndexOf(jobs, name);
    match c
    case Add(argv) =>
      var flags := FlagsFrom(argv[1..], map[]).value;
      ApplyFrames(NewJob(name), flags, true, env);
      WithoutAppend(jobs, Applied(NewJob(name), flags, true, env).value);
    case Set(argv) =>
      var flags := FlagsFrom(argv[1..], map[]).value;
      ApplyFrames(jobs[i], flags, false, env);
      WithoutUpdate(jobs, i, Applied(jobs[i], flags, false, env).value, name);
    case Rm(argv) => WithoutTwice(jobs, name);
    case Enable(argv) => WithoutUpdate(jobs, i, jobs[i].(enabled := true), name);
    case Disable(argv) => WithoutUpdate(jobs, i, jobs[i].(enabled := false), name);
  }

  /** Removing a job just added gives the table back. */
  lemma AddThenRemove(jobs: seq<Job>, argv: seq<string>, env: Env)
    requires Do(jobs, Add(argv), env).Some?
    ensures Do(Do(jobs, Add(argv), env).value, Rm(argv), env) == Some(jobs)
  {
    hide Applied, GoodName, Tidied, FlagsFrom, IndexOf, Without, NewJob;
    OthersStay(jobs, Add(argv), env);
    var name := Tidied(argv[0]);
    assert forall j :: j in jobs ==> j.name != name;
    WithoutAll(jobs, name);
  }
}
