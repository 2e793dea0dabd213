/** The command runner's reload loop: it watches files whose list depends on the configuration that it
    reloads. Each pass sees one state of the file system. */
module Watcher {
  import opened Wrappers

  datatype Settings = Settings(webDir: string, uiFramework: string, buttons: seq<string>)

  datatype Templates = Templates(text: string)

  /** What the calls into the file system would return: the modification time of a file, the files matching
      a pattern, a configuration file read and decoded, the templates matching a pattern. */
  datatype FileSystem = FileSystem(
    modTime: string -> Option<int>, glob: string -> Option<seq<string>>,
    settings: string -> Option<Settings>, templates: string -> Option<Templates>)

  const DEFAULT_FRAMEWORK := "bootstrap"

  /** The globals: configuration, templates, and the last seen modification times. */
  datatype Globals = Globals(config: Settings, templates: Templates, watched: map<string, int>)

  // ---------- loading ----------

  function Load(fs: FileSystem, configFile: string): Option<(Settings, Templates)> {
    match fs.settings(configFile)
    case None => None
    case Some(read) =>
      var config := if read.uiFramework == "" then read.(uiFramework := DEFAULT_FRAMEWORK) else read;
      match fs.templates(config.webDir + "/*.html")
      case None => None
      case Some(templates) => Some((config, templates))
  }

  function Reload(fs: FileSystem, configFile: string, g: Globals): Globals {
    match Load(fs, configFile)
    case None => g
    case Some(loaded) => g.(config := loaded.0, templates := loaded.1)
  }

  // ---------- watching ----------

  function Found(fs: FileSystem, pattern: string): seq<string> {
    match fs.glob(pattern)
    case None => []
    case Some(files) => files
  }

  function WatchList(fs: FileSystem, configFile: string, webDir: string): seq<string> {
    [configFile] + Found(fs, webDir + "/*.html") + Found(fs, webDir + "/static/css/*.css")
    + Found(fs, webDir + "/static/js/*.js")
  }

  /** The file is there, and newer than when it was last seen, or was never seen. */
  predicate IsNews(fs: FileSystem, watched: map<string, int>, file: string) {
    match fs.modTime(file)
    case None => false
    case Some(t) => file !in watched || t > watched[file]
  }

  predicate NoNews(fs: FileSystem, watched: map<string, int>, files: seq<string>) {
    forall i :: 0 <= i < |files| ==> !IsNews(fs, watched, files[i])
  }

  /** The times after looking at files: those with news are brought up to date. */
  function Seen(fs: FileSystem, watched: map<string, int>, files: seq<string>): map<string, int> {
    if files == [] then watched
    else
      var before := Seen(fs, watched, files[..|files| - 1]);
      var file := files[|files| - 1];
      if IsNews(fs, before, file) then before[file := fs.modTime(file).value] else before
  }

  /** Some file has news by the time it is looked at. */
  predicate AnyNews(fs: FileSystem, watched: map<string, int>, files: seq<string>) {
    files != [] && (AnyNews(fs, watched, files[..|files| - 1])
                    || IsNews(fs, Seen(fs, watched, files[..|files| - 1]), files[|files| - 1]))
  }

  /** A file is or is not among the seen ones as before, with the same time. */
  predicate SameTime(before: map<string, int>, after: map<string, int>, file: string) {
    (file in after <==> file in before) && (file in before ==> after[file] == before[file])
  }

  /** The times after each file that is there was noted with its own. */
  function Noted(fs: FileSystem, watched: map<string, int>, files: seq<string>): map<string, int> {
    if files == [] then watched
    else
      var before, file := Noted(fs, watched, files[..|files| - 1]), files[|files| - 1];
      if fs.modTime(file).Some? then before[file := fs.modTime(file).value] else before
  }

  lemma {:induction false} NotedMeaning(fs: FileSystem, watched: map<string, int>, files: seq<string>, file: string)
    ensures var noted := Noted(fs, watched, files);
            if file in files && fs.modTime(file).Some? then file in noted && noted[file] == fs.modTime(file).value
            else SameTime(watched, noted, file)
  {
    if files != [] {
      var init, last := files[..|files| - 1], files[|files| - 1];
      NotedMeaning(fs, watched, init, file);
      assert file in files <==> file in init || file == last;
    }
  }

  /** Looking at files gives those the time of the disk that have a later one there or were never seen; all
      other times stay. */
  lemma {:induction false} SeenMeaning(fs: FileSystem, watched: map<string, int>, files: seq<string>, file: string)
    ensures var seen := Seen(fs, watched, files);
            if file in files && fs.modTime(file).Some? && (file !in watched || fs.modTime(file).value > watched[file])
            then file in seen && seen[file] == fs.modTime(file).value
            else SameTime(watched, seen, file)
  {
    if files != [] {
      var init, last := files[..|files| - 1], files[|files| - 1];
      SeenMeaning(fs, watched, init, file);
      assert file in files <==> file in init || file == last;
    }
  }

  class Runner {
    const configFile: string
    var config: Settings
    var templates: Templates
    var watchedFiles: map<string, int>

    ghost function State(): Globals
      reads this
    {
      Globals(config, templates, watchedFiles)
    }

    constructor (configFile: string, config: Settings, templates: Templates)
      ensures this.configFile == configFile && State() == Globals(config, templates, map[])
    {
      this.configFile, this.config, this.templates, this.watchedFiles := configFile, config, templates, map[];
    }

    method LoadConfig(fs: FileSystem) returns (ok: bool)
      modifies this`config, this`templates
      ensures ok == Load(fs, configFile).Some?
      ensures State() == Reload(fs, configFile, old(State()))
      ensures ok <==> fs.settings(configFile).Some? && fs.templates(fs.settings(configFile).value.webDir + "/*.html").Some?
      ensures ok ==>
                var read := fs.settings(configFile).value;
                && config == read.(uiFramework := if read.uiFramework == "" then "bootstrap" else read.uiFramework)
                && fs.templates(config.webDir + "/*.html") == Some(templates)
      ensures !ok ==> config == old(config) && templates == old(templates)
    {
      var data := fs.settings(configFile);
      if data.None? {
        return false;
      }
      var newConfig := data.value;
      if newConfig.uiFramework == "" {
        newConfig := newConfig.(uiFramework := DEFAULT_FRAMEWORK);
      }
      var newTemplates := fs.templates(newConfig.webDir + "/*.html");
      if newTemplates.None? {
        return false;
      }
      config := newConfig;
      templates := newTemplates.value;
      return true;
    }

    /** The configuration file first, and then exactly the files of those patterns that can be expanded. */
    method GetWatchedFiles(fs: FileSystem) returns (files: seq<string>)
      ensures files == WatchList(fs, configFile, config.webDir)
      ensures files[0] == configFile
      ensures forall f :: f in files <==>
                || f == configFile
                || (fs.glob(config.webDir + "/*.html").Some? && f in fs.glob(config.webDir + "/*.html").value)
                || (fs.glob(config.webDir + "/static/css/*.css").Some? && f in fs.glob(config.webDir + "/static/css/*.css").value)
                || (fs.glob(config.webDir + "/static/js/*.js").Some? && f in fs.glob(config.webDir + "/static/js/*.js").value)
    {
      files := [configFile];
      var matches := fs.glob(config.webDir + "/*.html");
      if matches.Some? {
        files := files + matches.value;
      }
      matches := fs.glob(config.webDir + "/static/css/*.css");
      if matches.Some? {
        files := files + matches.value;
      }
      matches := fs.glob(config.webDir + "/static/js/*.js");
      if matches.Some? {
        files := files + matches.value;
      }
    }

    /** The loop over the files to begin with. */
    method Note(fs: FileSystem, files: seq<string>)
      modifies this`watchedFiles
      ensures watchedFiles == Noted(fs, old(watchedFiles), files)
    {
      for i := 0 to |files|
        invariant watchedFiles == Noted(fs, old(watchedFiles), files[..i])
      {
        assert files[..i + 1][..i] == files[..i];
        var modTime := fs.modTime(files[i]);
        if modTime.Some? {
          watchedFiles := watchedFiles[files[i] := modTime.value];
        }
      }
      assert files[..|files|] == files;
    }

    /** At the start every watched file that is there is seen with its own time; all other times stay. */
    method InitFileWatcher(fs: FileSystem)
      modifies this`watchedFiles
      ensures NoNews(fs, watchedFiles, WatchList(fs, configFile, config.webDir))
      ensures forall f :: f in WatchList(fs, configFile, config.webDir) && fs.modTime(f).Some? ==>
                f in watchedFiles && watchedFiles[f] == fs.modTime(f).value
      ensures forall f :: f !in WatchList(fs, configFile, config.webDir) || fs.modTime(f).None? ==>
                SameTime(old(watchedFiles), watchedFiles, f)
    {
      var files := GetWatchedFiles(fs);
      Note(fs, files);
      forall f ensures if f in files && fs.modTime(f).Some? then f in watchedFiles && watchedFiles[f] == fs.modTime(f).value
                       else SameTime(old(watchedFiles), watchedFiles, f)
      {
        NotedMeaning(fs, old(watchedFiles), files, f);
      }
    }

    /** The loop over the watched files. */
    method LookAt(fs: FileSystem, files: seq<string>) returns (changed: bool)
      modifies this`watchedFiles
      ensures watchedFiles == Seen(fs, old(watchedFiles), files)
      ensures changed == AnyNews(fs, old(watchedFiles), files)
    {
      changed := false;
      for i := 0 to |files|
        invariant watchedFiles == Seen(fs, old(watchedFiles), files[..i])
        invariant changed == AnyNews(fs, old(watchedFiles), files[..i])
      {
        assert files[..i + 1][..i] == files[..i];
        var current := fs.modTime(files[i]);
        if current.None? {
          continue;
        }
        if files[i] !in watchedFiles || current.value > watchedFiles[files[i]] {
          watchedFiles := watchedFiles[files[i] := current.value];
          changed := true;
        }
      }
      assert files[..|files|] == files;
    }

    method CheckForChanges(fs: FileSystem) returns (changed: bool)
      modifies this`watchedFiles
      ensures watchedFiles == Seen(fs, old(watchedFiles), WatchList(fs, configFile, config.webDir))
      ensures changed <==> !NoNews(fs, old(watchedFiles), WatchList(fs, configFile, config.webDir))
      ensures changed <==>
                exists f :: f in WatchList(fs, configFile, config.webDir) && fs.modTime(f).Some?
                            && (f !in old(watchedFiles) || fs.modTime(f).value > old(watchedFiles)[f])
      ensures forall f ::
                if f in WatchList(fs, configFile, config.webDir) && fs.modTime(f).Some?
                   && (f !in old(watchedFiles) || fs.modTime(f).value > old(watchedFiles)[f])
                then f in watchedFiles && watchedFiles[f] == fs.modTime(f).value
                else SameTime(old(watchedFiles), watchedFiles, f)
    {
      var files := GetWatchedFiles(fs);
      changed := LookAt(fs, files);
      AnyNewsMeaning(fs, old(watchedFiles), files);
      forall f
        ensures if f in files && fs.modTime(f).Some? && (f !in old(watchedFiles) || fs.modTime(f).value > old(watchedFiles)[f])
                then f in watchedFiles && watchedFiles[f] == fs.modTime(f).value
                else SameTime(old(watchedFiles), watchedFiles, f)
      {
        SeenMeaning(fs, old(watchedFiles), files, f);
      }
    }

    /** One tick of the watcher. */
    method Tick(fs: FileSystem) returns (reloading: bool)
      modifies this
      ensures State() == AfterTick(fs, configFile, old(State()))
      ensures reloading == Reloads(fs, configFile, old(State()))
      ensures reloading <==>
                exists f :: f in WatchList(fs, configFile, old(config).webDir) && fs.modTime(f).Some?
                            && (f !in old(watchedFiles) || fs.modTime(f).value > old(watchedFiles)[f])
      ensures !reloading ==> unchanged(this)
    {
      reloading := CheckForChanges(fs);
      if reloading {
        var _ := LoadConfig(fs);
      } else {
        SeenNoNews(fs, old(watchedFiles), WatchList(fs, configFile, config.webDir));
      }
    }
  }

  // ---------- ticks, and when they stop reloading ----------

  predicate Reloads(fs: FileSystem, configFile: string, g: Globals) {
    !NoNews(fs, g.watched, WatchList(fs, configFile, g.config.webDir))
  }

  function AfterTick(fs: FileSystem, configFile: string, g: Globals): Globals {
    if Reloads(fs, configFile, g) then
      Reload(fs, configFile, g.(watched := Seen(fs, g.watched, WatchList(fs, configFile, g.config.webDir))))
    else g
  }

  lemma NoNewsSnoc(fs: FileSystem, watched: map<string, int>, files: seq<string>, file: string)
    ensures NoNews(fs, watched, files + [file]) <==> NoNews(fs, watched, files) && !IsNews(fs, watched, file)
  {
    var all := files + [file];
    assert all[|files|] == file;
    assert forall i :: 0 <= i < |files| ==> all[i] == files[i];
  }

  /** That is so exactly when some file has news at the outset. */
  lemma {:induction false} AnyNewsMeaning(fs: FileSystem, watched: map<string, int>, files: seq<string>)
    ensures AnyNews(fs, watched, files) <==> !NoNews(fs, watched, files)
  {
    if files != [] {
      var init, file := files[..|files| - 1], files[|files| - 1];
      AnyNewsMeaning(fs, watched, init);
      assert files == init + [file];
      NoNewsSnoc(fs, watched, init, file);
      if NoNews(fs, watched, init) {
        SeenNoNews(fs, watched, init);
      }
    }
  }

  /** Looking at files without news changes nothing. */
  lemma {:induction false} SeenNoNews(fs: FileSystem, watched: map<string, int>, files: seq<string>)
    requires NoNews(fs, watched, files)
    ensures Seen(fs, watched, files) == watched
  {
    if files != [] {
      SeenNoNews(fs, watched, files[..|files| - 1]);
    }
  }

  /** After looking at files none of them has news, times only advance, and nothing else is touched. */
  lemma {:induction false} SeenSettles(fs: FileSystem, watched: map<string, int>, files: seq<string>)
    ensures NoNews(fs, Seen(fs, watched, files), files)
    ensures forall f :: IsNews(fs, Seen(fs, watched, files), f) <==> IsNews(fs, watched, f) && f !in files
  {
    if files != [] {
      var init, file := files[..|files| - 1], files[|files| - 1];
      SeenSettles(fs, watched, init);
      assert files == init + [file];
      forall f ensures IsNews(fs, Seen(fs, watched, files), f) <==> IsNews(fs, watched, f) && f !in files {
        assert f in files <==> f in init || f == file;
      }
      forall i | 0 <= i < |files| ensures !IsNews(fs, Seen(fs, watched, files), files[i]) {}
    }
  }

  /** n applications of f. */
  function Repeat<T>(f: T -> T, x: T, n: nat): T {
    if n == 0 then x else f(Repeat(f, x, n - 1))
  }

  lemma {:induction false} RestLasts<T>(f: T -> T, x: T, n: nat)
    requires f(x) == x
    ensures Repeat(f, x, n) == x
  {
    if n > 0 {
      RestLasts(f, x, n - 1);
    }
  }

  function Ticker(fs: FileSystem, configFile: string): Globals -> Globals {
    h => AfterTick(fs, configFile, h)
  }

  function AfterTicks(fs: FileSystem, configFile: string, g: Globals, n: nat): Globals {
    Repeat(Ticker(fs, configFile), g, n)
  }

  function CountReloads(fs: FileSystem, configFile: string, g: Globals, n: nat): nat {
    if n == 0 then 0
    else CountReloads(fs, configFile, g, n - 1)
         + if Reloads(fs, configFile, AfterTicks(fs, configFile, g, n - 1)) then 1 else 0
  }

  /** A tick that reloads but keeps the directory leaves no news. */
  lemma SameDirectorySettles(fs: FileSystem, configFile: string, g: Globals)
    requires Reloads(fs, configFile, g) && AfterTick(fs, configFile, g).config.webDir == g.config.webDir
    ensures !Reloads(fs, configFile, AfterTick(fs, configFile, g))
  {
    SeenSettles(fs, g.watched, WatchList(fs, configFile, g.config.webDir));
  }

  /** With the file system at rest the second tick never changes the directory again. */
  lemma SecondTickSettles(fs: FileSystem, configFile: string, g: Globals)
    ensures var g1 := AfterTick(fs, configFile, g);
            !Reloads(fs, configFile, AfterTick(fs, configFile, g1))
  {
    var g1 := AfterTick(fs, configFile, g);
    if Reloads(fs, configFile, g1) {
      if Reloads(fs, configFile, g) && g1.config.webDir == g.config.webDir {
        SameDirectorySettles(fs, configFile, g);
      }
      SameDirectorySettles(fs, configFile, g1);
    }
  }

  lemma {:induction false} AtRest(fs: FileSystem, configFile: string, g: Globals, n: nat)
    requires n >= 2
    ensures AfterTicks(fs, configFile, g, n) == AfterTicks(fs, configFile, g, 2)
    ensures !Reloads(fs, configFile, AfterTicks(fs, configFile, g, n))
    ensures CountReloads(fs, configFile, g, n) == CountReloads(fs, configFile, g, 2)
  {
    if n == 2 {
      assert AfterTicks(fs, configFile, g, 1) == AfterTick(fs, configFile, g);
      SecondTickSettles(fs, configFile, g);
    } else {
      AtRest(fs, configFile, g, n - 1);
    }
  }

  /** Once the file system is at rest, from any state of the watcher at most the next two of any number of
      ticks reload, even when a reload changes the watched directory; if the first does not change it, at most
      one does. */
  lemma ReloadsStop(fs: FileSystem, configFile: string, g: Globals, n: nat)
    ensures CountReloads(fs, configFile, g, n) <= 2
    ensures AfterTick(fs, configFile, g).config.webDir == g.config.webDir ==> CountReloads(fs, configFile, g, n) <= 1
    ensures n >= 2 ==> !Reloads(fs, configFile, AfterTicks(fs, configFile, g, n))
  {
    assert AfterTicks(fs, configFile, g, 1) == AfterTick(fs, configFile, g);
    assert CountReloads(fs, configFile, g, 1) <= 1;
    assert CountReloads(fs, configFile, g, 2)
           == (if Reloads(fs, configFile, g) then 1 else 0) + if Reloads(fs, configFile, AfterTick(fs, configFile, g)) then 1 else 0
    by {
      assert CountReloads(fs, configFile, g, 1) == CountReloads(fs, configFile, g, 0) + if Reloads(fs, configFile, AfterTicks(fs, configFile, g, 0)) then 1 else 0;
    }
    if Reloads(fs, configFile, g) && AfterTick(fs, configFile, g).config.webDir == g.config.webDir {
      SameDirectorySettles(fs, configFile, g);
    }
    if n >= 2 { AtRest(fs, configFile, g, n); }
  }

  /** Two is reached: a changed configuration names a new directory, whose files have not been seen. */
  lemma TwoReloads(fs: FileSystem, configFile: string, g: Globals, file: string)
    requires IsNews(fs, g.watched, configFile) && Load(fs, configFile).Some?
    requires var webDir := Load(fs, configFile).value.0.webDir;
             file in WatchList(fs, configFile, webDir) && file !in WatchList(fs, configFile, g.config.webDir)
    requires IsNews(fs, g.watched, file)
    ensures CountReloads(fs, configFile, g, 2) == 2
  {
    var files := WatchList(fs, configFile, g.config.webDir);
    assert files[0] == configFile;
    SeenSettles(fs, g.watched, files);
    var g1 := AfterTick(fs, configFile, g);
    assert IsNews(fs, g1.watched, file);
    var later := WatchList(fs, configFile, g1.config.webDir);
    var i :| 0 <= i < |later| && later[i] == file;
    assert Reloads(fs, configFile, g1);
    assert AfterTicks(fs, configFile, g, 1) == g1;
    assert CountReloads(fs, configFile, g, 1) == CountReloads(fs, configFile, g, 0) + 1;
  }

  // ---------- configuration and templates belong together ----------

  /** The globals after a start from a successful load and ticks that each saw another file system. */
  function AfterHistory(fss: seq<FileSystem>, configFile: string, start: Globals): Globals {
    if fss == [] then start
    else AfterTick(fss[|fss| - 1], configFile, AfterHistory(fss[..|fss| - 1], configFile, start))
  }

  predicate LoadedFrom(fs: FileSystem, configFile: string, g: Globals) {
    Load(fs, configFile) == Some((g.config, g.templates))
  }

  /** However the file system changes, configuration and templates in force always come from one and the same
      successful load: the one at the start or that of some tick. */
  lemma {:induction false} ConfigMatchesTemplates(first: FileSystem, fss: seq<FileSystem>, configFile: string, start: Globals)
    requires LoadedFrom(first, configFile, start)
    ensures var g := AfterHistory(fss, configFile, start);
            LoadedFrom(first, configFile, g) || exists i :: 0 <= i < |fss| && LoadedFrom(fss[i], configFile, g)
  {
    if fss != [] {
      var init := fss[..|fss| - 1];
      ConfigMatchesTemplates(first, init, configFile, start);
      var g0, g := AfterHistory(init, configFile, start), AfterHistory(fss, configFile, start);
      if g.config == g0.config && g.templates == g0.templates {
        if !LoadedFrom(first, configFile, g0) {
          var i :| 0 <= i < |init| && LoadedFrom(init[i], configFile, g0);
          assert LoadedFrom(fss[i], configFile, g);
        }
      } else {
        assert LoadedFrom(fss[|fss| - 1], configFile, g);
      }
    }
  }

  // ---------- whether what is in force is what is on disk ----------

  /** With the file system at rest, from the first tick on: configuration and templates in force are those on disk
      if and only if they can be loaded, and were in force already or that first tick had news. */
  lemma {:induction false} InForceExactlyWhen(fs: FileSystem, configFile: string, g: Globals, n: nat)
    requires n >= 1
    ensures LoadedFrom(fs, configFile, AfterTicks(fs, configFile, g, n))
            <==> Load(fs, configFile).Some? && (Reloads(fs, configFile, g) || LoadedFrom(fs, configFile, g))
  {
    if n == 1 {
      assert AfterTicks(fs, configFile, g, 1) == AfterTick(fs, configFile, AfterTicks(fs, configFile, g, 0));
    } else {
      InForceExactlyWhen(fs, configFile, g, n - 1);
    }
  }

  /** fs' differs from fs in nothing that is watched for the directory. */
  ghost predicate SameToWatcher(fs: FileSystem, fs': FileSystem, configFile: string, webDir: string) {
    var files := WatchList(fs, configFile, webDir);
    WatchList(fs', configFile, webDir) == files && forall i :: 0 <= i < |files| ==> fs'.modTime(files[i]) == fs.modTime(files[i])
  }

  lemma SameNews(fs: FileSystem, fs': FileSystem, watched: map<string, int>, files: seq<string>)
    requires NoNews(fs, watched, files) && forall i :: 0 <= i < |files| ==> fs'.modTime(files[i]) == fs.modTime(files[i])
    ensures NoNews(fs', watched, files)
  {
    forall i | 0 <= i < |files| ensures !IsNews(fs', watched, files[i]) {
      assert !IsNews(fs, watched, files[i]);
    }
  }

  /** A failed load has used up the news: whatever is added afterwards outside the watched files, nothing is
      loaded any more. */
  lemma FailedLoadIsNotRetried(fs: FileSystem, fs': FileSystem, configFile: string, g: Globals, n: nat)
    requires Reloads(fs, configFile, g) && Load(fs, configFile).None? && SameToWatcher(fs, fs', configFile, g.config.webDir)
    ensures var g1 := AfterTick(fs, configFile, g);
            g1.config == g.config && g1.templates == g.templates && AfterTicks(fs', configFile, g1, n) == g1
  {
    var files := WatchList(fs, configFile, g.config.webDir);
    SeenSettles(fs, g.watched, files);
    SameNews(fs, fs', Seen(fs, g.watched, files), files);
    var g1 := AfterTick(fs, configFile, g);
    assert AfterTick(fs', configFile, g1) == g1;
    RestLasts(Ticker(fs', configFile), g1, n);
  }

  /** It happens: the configuration names a new directory, whose templates are added only after the tick that saw
      the change. They can be loaded then, and never are. */
  lemma LateTemplatesAreMissed(configFile: string) returns (fs: FileSystem, fs': FileSystem, g: Globals)
    ensures Reloads(fs, configFile, g) && Load(fs, configFile).None? && Load(fs', configFile).Some?
    ensures forall n :: !LoadedFrom(fs', configFile, AfterTicks(fs', configFile, AfterTick(fs, configFile, g), n))
  {
    var written := Settings("new", DEFAULT_FRAMEWORK, []);
    fs := FileSystem(f => if f == configFile then Some(1) else None, p => None, f => Some(written), p => None);
    fs' := fs.(templates := p => Some(Templates("page")));
    g := Globals(Settings("old", DEFAULT_FRAMEWORK, []), Templates("page"), map[]);
    assert IsNews(fs, g.watched, WatchList(fs, configFile, "old")[0]);
    forall n ensures !LoadedFrom(fs', configFile, AfterTicks(fs', configFile, AfterTick(fs, configFile, g), n)) {
      FailedLoadIsNotRetried(fs, fs', configFile, g, n);
      assert g.config.webDir == "old" && Load(fs', configFile).value.0.webDir == "new";
      assert "old"[0] != "new"[0];
    }
  }
}
