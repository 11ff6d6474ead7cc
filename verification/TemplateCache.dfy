/** The cache of parsed templates: looking a template up is parsing its file again, only faster. */
module TemplateCache {
  import opened TextStream
  import opened TemplateBuild
  import opened TemplateParse

  datatype File = File(content: string, modified: nat)

  /** A template in the cache, and when its parse began. */
  datatype Cached = Cached(template: Store, parseTime: nat)

  /** The template; a template whose parse threw; or `FileNotFoundException`. */
  datatype Outcome = Found(template: Store) | Erroneous | NotFound

  type Files = map<string, File>
  type Entries = map<string, Cached>

  /** What a lookup without a cache would give. */
  function Reparse(files: Files, path: string): Outcome {
    if path !in files then NotFound
    else match ParseText(files[path].content)
      case None => Erroneous
      case Some(template) => Found(template)
  }

  /** `tpl->parse()`; only a parse that does not throw enters the cache. */
  function Load(cache: Entries, file: File, path: string, now: nat): (Entries, Outcome) {
    match ParseText(file.content)
    case None => (cache, Erroneous)
    case Some(template) => (cache[path := Cached(template, now)], Found(template))
  }

  /** `getTemplate`. `getLastModified` of a file that is gone throws as well. */
  function Get(cache: Entries, files: Files, path: string, now: nat): (Entries, Outcome) {
    if path !in files then (cache, NotFound)
    else if path !in cache || cache[path].parseTime < files[path].modified then Load(cache, files[path], path, now)
    else (cache, Found(cache[path].template))
  }

  class Cache {
    var entries: Entries

    constructor ()
      ensures entries == map[]
    {
      entries := map[];
    }

    method GetTemplate(path: string, files: Files, now: nat) returns (r: Outcome)
      modifies this
      ensures (entries, r) == Get(old(entries), files, path, now)
    {
      if path !in entries {
        if path !in files {
          return NotFound;
        }
        r := Reload(path, files[path], now);
      } else {
        if path !in files {
          return NotFound;
        }
        r := Found(entries[path].template);
        if entries[path].parseTime < files[path].modified {
          r := Reload(path, files[path], now);
        }
      }
    }

    method Reload(path: string, file: File, now: nat) returns (r: Outcome)
      modifies this
      ensures (entries, r) == Load(old(entries), file, path, now)
    {
      var template := ParseText(file.content);
      if template == None {
        return Erroneous;
      }
      entries := entries[path := Cached(template.value, now)];
      return Found(template.value);
    }
  }

  // ---------------------------------------------------------------- runs

  datatype Action = Write(path: string, content: string) | Delete(path: string) | Lookup(path: string)

  datatype Timed = At(action: Action, time: nat)

  datatype State = State(files: Files, cache: Entries)

  const START := State(map[], map[])

  function Act(st: State, a: Timed): State {
    match a.action
    case Write(path, content) => st.(files := st.files[path := File(content, a.time)])
    case Delete(path) => st.(files := st.files - {path})
    case Lookup(path) => st.(cache := Get(st.cache, st.files, path, a.time).0)
  }

  function Run(st: State, run: seq<Timed>): State
    decreases |run|
  {
    if run == [] then st else Act(Run(st, run[..|run| - 1]), run[|run| - 1])
  }

  // ---------------------------------------------------------------- when a lookup is stale

  /** The action writes or deletes the file. */
  predicate Touches(a: Action, path: string) {
    !a.Lookup? && a.path == path
  }

  /** Action `k` is the last to touch the file. */
  ghost predicate IsLastTouch(run: seq<Timed>, path: string, k: nat) {
    k < |run| && Touches(run[k].action, path) && forall j | k < j < |run| :: !Touches(run[j].action, path)
  }

  /** The write finds a template in the cache whose parse is not older than the write, and which is not
      what the new content is parsed as. */
  ghost predicate WriteIsMissed(st: State, a: Timed, path: string) {
    && a.action.Write? && a.action.path == path
    && path in st.cache && a.time <= st.cache[path].parseTime
    && ParseText(a.action.content) != Some(st.cache[path].template)
  }

  /** The last action on the file is a write that the cache misses. */
  ghost predicate Stale(run: seq<Timed>, path: string) {
    exists k: nat :: IsLastTouch(run, path, k) && WriteIsMissed(Run(START, run[..k]), run[k], path)
  }

  /** The same, seen in the state. */
  ghost predicate StaleIn(st: State, path: string) {
    && path in st.files && path in st.cache
    && st.files[path].modified <= st.cache[path].parseTime
    && ParseText(st.files[path].content) != Some(st.cache[path].template)
  }

  /** A lookup does not fit the file exactly in such a state. */
  lemma LookupFailsIn(st: State, path: string, now: nat)
    ensures Get(st.cache, st.files, path, now).1 == Reparse(st.files, path) <==> !StaleIn(st, path)
  {
  }

  /** Lookups, and actions on other files, leave it as it is. */
  lemma UntouchedKeepsStale(st: State, a: Timed, path: string)
    requires !Touches(a.action, path)
    ensures StaleIn(Act(st, a), path) <==> StaleIn(st, path)
  {
  }

  lemma TouchDecides(st: State, a: Timed, path: string)
    requires Touches(a.action, path)
    ensures StaleIn(Act(st, a), path) <==> WriteIsMissed(st, a, path)
  {
  }

  lemma {:induction false} StaleIffIn(run: seq<Timed>, path: string)
    ensures Stale(run, path) <==> StaleIn(Run(START, run), path)
    decreases |run|
  {
    if run != [] {
      var n := |run| - 1;
      var init, last := run[..n], run[n];
      StaleIffIn(init, path);
      if Touches(last.action, path) {
        TouchDecides(Run(START, init), last, path);
        assert forall k: nat | IsLastTouch(run, path, k) :: k == n;
        assert IsLastTouch(run, path, n);
      } else {
        UntouchedKeepsStale(Run(START, init), last, path);
        StaleInit(run, path);
      }
    }
  }

  lemma {:induction false} StaleInit(run: seq<Timed>, path: string)
    requires run != [] && !Touches(run[|run| - 1].action, path)
    ensures Stale(run, path) <==> Stale(run[..|run| - 1], path)
  {
    var init := run[..|run| - 1];
    forall k: nat
      ensures IsLastTouch(run, path, k) <==> IsLastTouch(init, path, k)
      ensures IsLastTouch(run, path, k) ==> init[..k] == run[..k] && init[k] == run[k]
    {
    }
  }

  /** On any clock, after every run of writes, deletions and lookups: a lookup gives what parsing the file
      as it is now gives, if and only if the last action on the file is not a write that the cache
      misses. */
  lemma {:induction false} LookupIsReparseIff(run: seq<Timed>, path: string, now: nat)
    ensures var st := Run(START, run);
            Get(st.cache, st.files, path, now).1 == Reparse(st.files, path) <==> !Stale(run, path)
  {
    StaleIffIn(run, path);
    LookupFailsIn(Run(START, run), path, now);
  }

  // ---------------------------------------------------------------- clocks

  /** The clock moves between any two actions. */
  ghost predicate Increasing(run: seq<Timed>) {
    forall i, j | 0 <= i < j < |run| :: run[i].time < run[j].time
  }

  lemma ParsedEarlier(st: State, a: Timed, now: nat)
    requires (forall path | path in st.cache :: st.cache[path].parseTime < a.time) && a.time < now
    ensures forall path | path in Act(st, a).cache :: Act(st, a).cache[path].parseTime < now
  {
  }

  lemma {:induction false} AllParsedEarlier(run: seq<Timed>, now: nat)
    requires Increasing(run) && (run != [] ==> run[|run| - 1].time < now)
    ensures forall path | path in Run(START, run).cache :: Run(START, run).cache[path].parseTime < now
    decreases |run|
  {
    if run != [] {
      var last := run[|run| - 1];
      AllParsedEarlier(run[..|run| - 1], last.time);
      ParsedEarlier(Run(START, run[..|run| - 1]), last, now);
    }
  }

  /** On a clock that moves between actions every lookup gives what parsing the file as it is now gives. */
  lemma {:induction false} LookupIsReparse(run: seq<Timed>, path: string, now: nat)
    requires Increasing(run)
    ensures var st := Run(START, run); Get(st.cache, st.files, path, now).1 == Reparse(st.files, path)
  {
    LookupIsReparseIff(run, path, now);
    forall k: nat | IsLastTouch(run, path, k) ensures !WriteIsMissed(Run(START, run[..k]), run[k], path) {
      AllParsedEarlier(run[..k], run[k].time);
    }
  }

  ghost predicate Wrote(run: seq<Timed>, path: string, content: string) {
    exists i :: 0 <= i < |run| && run[i].action == Write(path, content)
  }

  ghost predicate Parsed(run: seq<Timed>, path: string, template: Store) {
    exists content :: Wrote(run, path, content) && ParseText(content) == Some(template)
  }

  lemma {:induction false} WroteMore(run: seq<Timed>, more: seq<Timed>, path: string, content: string)
    requires run <= more && Wrote(run, path, content)
    ensures Wrote(more, path, content)
  {
    var i :| 0 <= i < |run| && run[i].action == Write(path, content);
    assert more[i] == run[i];
  }

  /** The cache only ever holds templates that were parsed without an exception, from texts that their
      files have had, on any clock. */
  lemma {:induction false} CacheIsParsed(run: seq<Timed>)
    ensures AllWritten(run, Run(START, run))
    decreases |run|
  {
    if run != [] {
      var before := run[..|run| - 1];
      CacheIsParsed(before);
      ActKeepsParsed(before, run, Run(START, before));
    }
  }

  ghost predicate AllWritten(run: seq<Timed>, st: State) {
    && (forall path | path in st.files :: Wrote(run, path, st.files[path].content))
    && (forall path | path in st.cache :: Parsed(run, path, st.cache[path].template))
  }

  lemma {:induction false} ParsedMore(run: seq<Timed>, more: seq<Timed>, path: string, template: Store)
    requires run <= more && Parsed(run, path, template)
    ensures Parsed(more, path, template)
  {
    var content :| Wrote(run, path, content) && ParseText(content) == Some(template);
    WroteMore(run, more, path, content);
  }

  lemma {:induction false} ActKeepsParsed(before: seq<Timed>, run: seq<Timed>, st: State)
    requires run != [] && before == run[..|run| - 1] && AllWritten(before, st)
    ensures AllWritten(run, Act(st, run[|run| - 1]))
  {
    var last := run[|run| - 1];
    var next := Act(st, last);
    forall path | path in next.files ensures Wrote(run, path, next.files[path].content) {
      if last.action.Write? && last.action.path == path {
        assert run[|run| - 1].action == Write(path, next.files[path].content);
      } else {
        WroteMore(before, run, path, st.files[path].content);
      }
    }
    forall path | path in next.cache ensures Parsed(run, path, next.cache[path].template) {
      if path in st.cache && next.cache[path] == st.cache[path] {
        ParsedMore(before, run, path, st.cache[path].template);
      } else {
        WroteMore(before, run, path, st.files[path].content);
      }
    }
  }

  /** On a clock that stands still a write right after a lookup is not seen. */
  lemma {:induction false} SameTickIsStale(path: string, before: string, after: string, now: nat)
    requires ParseText(before).Some? && ParseText(before) != ParseText(after)
    ensures var st := Run(START, [At(Write(path, before), now), At(Lookup(path), now), At(Write(path, after), now)]);
            Get(st.cache, st.files, path, now).1 != Reparse(st.files, path)
  {
    var a, b, c := At(Write(path, before), now), At(Lookup(path), now), At(Write(path, after), now);
    var run := [a, b, c];
    RunTwo(a, b);
    assert run[..2] == [a, b];
    assert IsLastTouch(run, path, 2) && WriteIsMissed(Run(START, run[..2]), run[2], path);
    LookupIsReparseIff(run, path, now);
  }

  lemma {:induction false} RunTwo(a: Timed, b: Timed)
    ensures Run(START, [a, b]) == Act(Act(START, a), b)
  {
    assert [a, b][..1] == [a] && [a][..0] == [];
    assert Run(START, []) == START;
    assert Run(START, [a]) == Act(START, a);
  }
}
