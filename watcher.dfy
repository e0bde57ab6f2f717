/**
 * The Watcher of egg-ts-helper: it merges its options once, collects changed
 * paths into a de-duplicated stack behind a single throttle timer, drains that
 * stack last-in first-out through the generator when the timer fires, emits an
 * `update` event for every truthy generator result, and can be destroyed.
 *
 * The timer is an `armed` flag plus an explicit `Fire` method; the file-system
 * watcher is a value recording the glob and the subscriptions made on it; the
 * emitted events are the `updates` log.
 */
module Watch {
  import opened JsText
  import Utils

  // ---------------------------------------------------------------------
  // JavaScript values as they appear in options and generator results

  datatype JsValue =
    | Undefined
    | Null
    | Bool(b: bool)
    | Str(s: string)
    | Strings(items: seq<string>)
    | Obj(fields: map<string, JsValue>)

  /** The value `if (v)` and `v || w` test: objects and arrays are always truthy. */
  predicate Truthy(v: JsValue)
  {
    match v
    case Undefined => false
    case Null => false
    case Bool(b) => b
    case Str(s) => s != []
    case Strings(_) => true
    case Obj(_) => true
  }

  /** A plain object: own property names and their values. */
  type Options = map<string, JsValue>

  /** `o[k]`, which is undefined for a missing property. */
  function Get(o: Options, k: string): JsValue
  {
    if k in o then o[k] else Undefined
  }

  // ---------------------------------------------------------------------
  // Option merge of `init`

  /** The name of the generator to load: the caller's `generator` option when truthy, else `class`. */
  function GeneratorName(options: Options): (r: JsValue)
    ensures Truthy(r)
    ensures Truthy(Get(options, "generator")) ==> r == options["generator"]
    ensures !Truthy(Get(options, "generator")) ==> r == Str("class")
  {
    if Truthy(Get(options, "generator")) then options["generator"] else Str("class")
  }

  /** The built-in defaults, the first source of the merge. */
  function BuiltInDefaults(generatorName: JsValue): Options
  {
    map["trigger" := Strings(["add", "unlink"]), "generator" := generatorName,
        "pattern" := Str("**/*.(ts|js)"), "watch" := Bool(true)]
  }

  /**
   * `Object.assign({ ...defaults }, generator.defaultConfig, options)`: each
   * source overwrites what the earlier ones set, and a missing
   * `defaultConfig` (undefined) is skipped.
   */
  function MergeOptions(options: Options, defaultConfig: Option<Options>): (r: Options)
    ensures r.Keys == BuiltInDefaults(GeneratorName(options)).Keys
      + (if defaultConfig.Some? then defaultConfig.value.Keys else {}) + options.Keys
    ensures forall k :: k in r ==>
      r[k] == if k in options then options[k]
              else if defaultConfig.Some? && k in defaultConfig.value then defaultConfig.value[k]
              else BuiltInDefaults(GeneratorName(options))[k]
  {
    var dc := if defaultConfig.Some? then defaultConfig.value else map[];
    BuiltInDefaults(GeneratorName(options)) + dc + options
  }

  /** The merged options hold exactly the keys of the three sources. */
  lemma MergeKeys(options: Options, defaultConfig: Option<Options>, k: string)
    ensures k in MergeOptions(options, defaultConfig) <==>
      k in {"trigger", "generator", "pattern", "watch"} || k in options
      || (defaultConfig.Some? && k in defaultConfig.value)
  {
  }

  /** A key the caller sets wins over both the generator's and the built-in defaults. */
  lemma CallerOptionsWin(options: Options, defaultConfig: Option<Options>, k: string)
    requires k in options
    ensures MergeOptions(options, defaultConfig)[k] == options[k]
  {
  }

  /** A key the caller leaves out comes from the generator's `defaultConfig` when it has it. */
  lemma DefaultConfigComesNext(options: Options, defaultConfig: Option<Options>, k: string)
    requires k !in options && defaultConfig.Some? && k in defaultConfig.value
    ensures MergeOptions(options, defaultConfig)[k] == defaultConfig.value[k]
  {
  }

  /**
   * A key neither the caller nor the generator sets takes the built-in
   * default: watching on, the pattern matching every `.ts` and `.js` file
   * below the directory, the `add` and `unlink` triggers, and `class` as the
   * generator name.
   */
  lemma BuiltInsFillTheRest(options: Options, defaultConfig: Option<Options>, k: string)
    requires k !in options && (defaultConfig.None? || k !in defaultConfig.value)
    requires k in {"trigger", "generator", "pattern", "watch"}
    ensures k == "watch" ==> MergeOptions(options, defaultConfig)[k] == Bool(true)
    ensures k == "pattern" ==> MergeOptions(options, defaultConfig)[k] == Str("**/*.(ts|js)")
    ensures k == "trigger" ==> MergeOptions(options, defaultConfig)[k] == Strings(["add", "unlink"])
    ensures k == "generator" ==> MergeOptions(options, defaultConfig)[k] == Str("class")
  {
  }

  /**
   * A caller that sets `generator` to a falsy value gets the `class`
   * generator loaded, yet the merged options record that falsy value, not
   * `'class'`, as `generator`: the caller's own key overwrites the default.
   */
  lemma FalsyGeneratorIsKept(options: Options, defaultConfig: Option<Options>)
    requires "generator" in options && !Truthy(options["generator"])
    ensures GeneratorName(options) == Str("class")
    ensures MergeOptions(options, defaultConfig)["generator"] == options["generator"]
    ensures MergeOptions(options, defaultConfig)["generator"] != GeneratorName(options)
  {
  }

  // ---------------------------------------------------------------------
  // The configuration one `execute` call hands to the generator

  /**
   * `loadFiles(cwd, pattern)`: the files the glob matches below `cwd`
   * (`glob` stands for the `globby.sync` call, which also excludes `.d.ts`
   * files) with every `x.js` whose `x.ts` is listed removed. A falsy pattern
   * falls back to the pattern for every `.js` and `.ts` file.
   */
  function LoadFiles(glob: (string, JsValue) -> seq<string>, cwd: string, pattern: JsValue): (r: seq<string>)
    ensures var found := glob(cwd, if Truthy(pattern) then pattern else Str("**/*.(js|ts)"));
      (forall f :: f in r <==> f in found && !Utils.ShadowedJs(f, found)) && Utils.IsSubsequence(r, found)
  {
    Utils.LoadFilesFilter(glob(cwd, if Truthy(pattern) then pattern else Str("**/*.(js|ts)")))
  }

  /**
   * `Object.assign({}, options, { file, dir, dtsDir, get fileList() {...} })`.
   * `Object.assign` reads each property of its sources, so the getter runs
   * while the object is built and `fileList` arrives as a plain list.
   */
  function NewConfig(options: Options, file: string, dir: string, dtsDir: string, fileList: seq<string>): (r: Options)
    ensures r.Keys == options.Keys + {"file", "dir", "dtsDir", "fileList"}
    ensures r["file"] == Str(file) && r["dir"] == Str(dir) && r["dtsDir"] == Str(dtsDir)
    ensures r["fileList"] == Strings(fileList)
    ensures forall k :: k in options && k !in {"file", "dir", "dtsDir", "fileList"} ==> r[k] == options[k]
  {
    options + map["file" := Str(file), "dir" := Str(dir), "dtsDir" := Str(dtsDir),
                  "fileList" := Strings(fileList)]
  }

  // ---------------------------------------------------------------------
  // The throttle stack

  predicate NoDuplicates(s: seq<string>)
  {
    forall i, j :: 0 <= i < j < |s| ==> s[i] != s[j]
  }

  /** Push `p` onto the stack unless it is already there. */
  function Enqueue(stack: seq<string>, p: string): (r: seq<string>)
    ensures p in r
    ensures forall x :: x in r <==> x in stack || x == p
    ensures |stack| <= |r| <= |stack| + 1 && r[..|stack|] == stack
    ensures NoDuplicates(stack) ==> NoDuplicates(r)
  {
    if p in stack then stack else stack + [p]
  }

  /**
   * The stack a run of change events builds from an empty one: every
   * changed path once, however often it changed.
   */
  function Stacked(events: seq<string>): (r: seq<string>)
    ensures NoDuplicates(r)
    ensures forall x :: x in r <==> x in events
    ensures |r| <= |events|
  {
    if events == [] then []
    else
      var init := events[..|events| - 1];
      assert events == init + [events[|events| - 1]];
      Enqueue(Stacked(init), events[|events| - 1])
  }

  /** The order in which `pop()` hands out the elements of a stack. */
  function Reversed(s: seq<string>): seq<string>
  {
    if s == [] then [] else [s[|s| - 1]] + Reversed(s[..|s| - 1])
  }

  lemma {:induction false} ReversedAt(s: seq<string>)
    ensures |Reversed(s)| == |s|
    ensures forall k :: 0 <= k < |s| ==> Reversed(s)[k] == s[|s| - 1 - k]
  {
    if s != [] {
      ReversedAt(s[..|s| - 1]);
    }
  }

  lemma {:induction false} ReversedMultiset(s: seq<string>)
    ensures multiset(Reversed(s)) == multiset(s)
  {
    if s != [] {
      ReversedMultiset(s[..|s| - 1]);
      assert s == s[..|s| - 1] + [s[|s| - 1]];
    }
  }

  lemma {:induction false} NoDuplicatesCount(s: seq<string>, x: string)
    requires NoDuplicates(s)
    ensures multiset(s)[x] == if x in s then 1 else 0
  {
    if s != [] {
      assert s == [s[0]] + s[1..];
      assert NoDuplicates(s[1..]) by {
        forall i, j | 0 <= i < j < |s| - 1 ensures s[1..][i] != s[1..][j] {
          assert s[1..][i] == s[i + 1] && s[1..][j] == s[j + 1];
        }
      }
      assert s[0] !in s[1..] by {
        forall i | 0 <= i < |s| - 1 ensures s[1..][i] != s[0] {
          assert s[1..][i] == s[i + 1];
        }
      }
      NoDuplicatesCount(s[1..], x);
    }
  }

  /**
   * After any run of change events, the drain executes every changed path
   * exactly once, last first.
   */
  lemma DrainExecutesEachPathOnce(events: seq<string>, x: string)
    ensures multiset(Reversed(Stacked(events)))[x] == if x in events then 1 else 0
    ensures |Reversed(Stacked(events))| > 0 ==>
      Reversed(Stacked(events))[0] == Stacked(events)[|Stacked(events)| - 1]
  {
    ReversedMultiset(Stacked(events));
    ReversedAt(Stacked(events));
    NoDuplicatesCount(Stacked(events), x);
  }

  // ---------------------------------------------------------------------
  // The file-system watcher

  datatype Handler = OnChangeHandler | RemoveSameNameJs

  datatype Subscription = Subscription(event: string, handler: Handler)

  /** A chokidar watcher: its glob and the listeners registered on it, in order. */
  datatype FsWatcher = FsWatcher(glob: string, subscriptions: seq<Subscription>)

  /** One `onChange` listener per trigger event, then `removeSameNameJs` on `unlink`. */
  function Subscriptions(trigger: seq<string>, autoRemoveJs: bool): (r: seq<Subscription>)
    ensures |r| == |trigger| + (if autoRemoveJs then 1 else 0)
    ensures forall i :: 0 <= i < |trigger| ==> r[i] == Subscription(trigger[i], OnChangeHandler)
    ensures autoRemoveJs ==> r[|trigger|] == Subscription("unlink", RemoveSameNameJs)
  {
    seq(|trigger|, i requires 0 <= i < |trigger| => Subscription(trigger[i], OnChangeHandler))
    + (if autoRemoveJs then [Subscription("unlink", RemoveSameNameJs)] else [])
  }

  // ---------------------------------------------------------------------
  // The watcher

  /** One `emit('update', result, file)`. */
  datatype Update = Update(result: JsValue, file: string)

  class Watcher {
    /** The merged options of `init`. */
    const options: Options
    const dir: string
    const dtsDir: string
    /** The loaded generator, with the base config and helper it receives fixed. */
    const generator: Options -> JsValue
    /** `globby.sync` over a directory. */
    const glob: (string, JsValue) -> seq<string>
    /** `config.autoRemoveJs` of the base config. */
    const autoRemoveJs: bool

    var throttleStack: seq<string>
    /** `throttleTick !== null`: a drain is scheduled. */
    var armed: bool
    var fsWatcher: Option<FsWatcher>
    /** Every `update` event emitted, in order. */
    var updates: seq<Update>
    /** Every file passed to `execute`, in order. */
    ghost var executed: seq<string>
    /** Every `fsWatcher.close()`, in order. */
    ghost var closed: seq<FsWatcher>
    /** How many timers have been scheduled. */
    ghost var timersArmed: nat

    /** Between calls the stack has no duplicates and is non-empty exactly while a timer is pending. */
    ghost predicate Valid()
      reads this
    {
      NoDuplicates(throttleStack) && (armed <==> throttleStack != [])
    }

    constructor (callerOptions: Options, defaultConfig: Option<Options>, dir: string, dtsDir: string,
                 generator: Options -> JsValue, glob: (string, JsValue) -> seq<string>, autoRemoveJs: bool)
      ensures Valid()
      ensures options == MergeOptions(callerOptions, defaultConfig)
      ensures this.dir == dir && this.dtsDir == dtsDir && this.generator == generator
      ensures this.glob == glob && this.autoRemoveJs == autoRemoveJs
      ensures throttleStack == [] && !armed && fsWatcher.None?
      ensures updates == [] && executed == [] && closed == [] && timersArmed == 0
    {
      options := MergeOptions(callerOptions, defaultConfig);
      this.dir := dir;
      this.dtsDir := dtsDir;
      this.generator := generator;
      this.glob := glob;
      this.autoRemoveJs := autoRemoveJs;
      throttleStack := [];
      armed := false;
      fsWatcher := None;
      updates := [];
      executed := [];
      closed := [];
      timersArmed := 0;
    }

    /** What the generator returns for a changed file. */
    function Run(file: string): JsValue
    {
      generator(NewConfig(options, file, dir, dtsDir, LoadFiles(glob, dir, Get(options, "pattern"))))
    }

    /** The `update` event, if any, that executing one file emits. */
    function Emitted(file: string): seq<Update>
    {
      if Truthy(Run(file)) then [Update(Run(file), file)] else []
    }

    /** The events a sequence of `execute` calls emits. */
    function Emissions(files: seq<string>): seq<Update>
    {
      if files == [] then [] else Emitted(files[0]) + Emissions(files[1..])
    }

    /** Every event carries a truthy result of its own file, and every truthy result is emitted. */
    lemma {:induction false} EmissionsSpec(files: seq<string>)
      ensures |Emissions(files)| <= |files|
      ensures forall u :: u in Emissions(files) ==> u.file in files && u.result == Run(u.file) && Truthy(u.result)
      ensures forall f :: f in files && Truthy(Run(f)) ==> Update(Run(f), f) in Emissions(files)
    {
      if files != [] {
        var rest := files[1..];
        EmissionsSpec(rest);
        assert Emissions(files) == Emitted(files[0]) + Emissions(rest);
        assert forall f :: f in files <==> f == files[0] || f in rest by {
          assert files == [files[0]] + rest;
        }
      }
    }

    /** `execute(file)`: run the generator and emit `update` when its result is truthy. */
    method Execute(file: string) returns (result: JsValue)
      modifies this`updates, this`executed
      ensures result == Run(file)
      ensures updates == old(updates) + Emitted(file)
      ensures executed == old(executed) + [file]
    {
      var fileList := LoadFiles(glob, dir, Get(options, "pattern"));
      var newConfig := NewConfig(options, file, dir, dtsDir, fileList);
      result := generator(newConfig);
      if Truthy(result) {
        updates := updates + [Update(result, file)];
      }
      executed := executed + [file];
    }

    /** `onChange(filePath)`: stack the path once and schedule a drain unless one is pending. */
    method OnChange(filePath: string)
      requires Valid()
      modifies this`throttleStack, this`armed, this`timersArmed
      ensures Valid()
      ensures throttleStack == Enqueue(old(throttleStack), filePath)
      ensures armed
      ensures timersArmed == old(timersArmed) + (if old(armed) then 0 else 1)
    {
      if filePath !in throttleStack {
        throttleStack := throttleStack + [filePath];
      }
      if armed {
        return;
      }
      armed := true;
      timersArmed := timersArmed + 1;
    }

    /** Popping the top of the stack takes the head of the pop order and of its emissions. */
    lemma PopOrder(stack: seq<string>)
      requires stack != []
      ensures Reversed(stack) == [stack[|stack| - 1]] + Reversed(stack[..|stack| - 1])
      ensures Emissions(Reversed(stack)) == Emitted(stack[|stack| - 1]) + Emissions(Reversed(stack[..|stack| - 1]))
    {
      var r := Reversed(stack);
      assert r[0] == stack[|stack| - 1] && r[1..] == Reversed(stack[..|stack| - 1]);
    }

    /** The timer callback: pop and execute until the stack is empty, then clear the tick. */
    method Fire()
      requires Valid() && armed
      modifies this`throttleStack, this`armed, this`updates, this`executed
      ensures Valid()
      ensures throttleStack == [] && !armed
      ensures executed == old(executed) + Reversed(old(throttleStack))
      ensures updates == old(updates) + Emissions(Reversed(old(throttleStack)))
    {
      ghost var allExecuted := executed + Reversed(throttleStack);
      ghost var allUpdates := updates + Emissions(Reversed(throttleStack));
      while throttleStack != []
        invariant executed + Reversed(throttleStack) == allExecuted
        invariant updates + Emissions(Reversed(throttleStack)) == allUpdates
        decreases |throttleStack|
      {
        ghost var u, e := updates, executed;
        var file := throttleStack[|throttleStack| - 1];
        PopOrder(throttleStack);
        throttleStack := throttleStack[..|throttleStack| - 1];
        ghost var rest := Reversed(throttleStack);
        var _ := Execute(file);
        assert executed + rest == allExecuted by {
          AppendAssoc(e, [file], rest);
        }
        assert updates + Emissions(rest) == allUpdates by {
          AppendAssoc(u, Emitted(file), Emissions(rest));
        }
      }
      armed := false;
    }

    /** `destroy()`: close the file watcher, cancel the timer and empty the stack. */
    method Destroy()
      modifies this`throttleStack, this`armed, this`closed
      ensures Valid()
      ensures throttleStack == [] && !armed
      ensures closed == old(closed) + (if fsWatcher.Some? then [fsWatcher.value] else [])
    {
      if fsWatcher.Some? {
        closed := closed + [fsWatcher.value];
      }
      armed := false;
      throttleStack := [];
    }

    /** `watch()`: when watching is on, replace the file watcher by a fresh one on the pattern. */
    method Watch(pathJoin: (string, string) -> string)
      requires Truthy(Get(options, "watch")) ==> Get(options, "pattern").Str? && Get(options, "trigger").Strings?
      modifies this`fsWatcher, this`closed
      ensures !Truthy(Get(options, "watch")) ==> fsWatcher == old(fsWatcher) && closed == old(closed)
      ensures Truthy(Get(options, "watch")) ==>
        fsWatcher == Some(FsWatcher(Utils.NormalizeSeparators(pathJoin(dir, options["pattern"].s)),
                                    Subscriptions(options["trigger"].items, autoRemoveJs)))
        && closed == old(closed) + (if old(fsWatcher).Some? then [old(fsWatcher).value] else [])
    {
      if !Truthy(Get(options, "watch")) {
        return;
      }
      if fsWatcher.Some? {
        closed := closed + [fsWatcher.value];
      }
      var watchGlob := Utils.NormalizeSeparators(pathJoin(dir, options["pattern"].s));
      var subscriptions := Subscriptions(options["trigger"].items, autoRemoveJs);
      fsWatcher := Some(FsWatcher(watchGlob, subscriptions));
    }
  }
}
