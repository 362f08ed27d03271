/** The logging helper of logutil.py: level names with aliases and a default,
    the choice of sink, the level read once from the environment and cached,
    and the threshold that decides which lines are written. */
module LogUtil {
  import opened Common
  import opened Text

  /** The keys of `_LEVELS`. */
  datatype Severity = Error | Warning | Info | Debug | Verbose

  /** A level's value in `_LEVELS`; a lower rank is more severe. */
  function Rank(l: Severity): nat
  {
    match l
    case Error => 0
    case Warning => 1
    case Info => 2
    case Debug => 3
    case Verbose => 4
  }

  /** A level's key in `_LEVELS`, the label `_emit` writes. */
  function Name(l: Severity): string
  {
    match l
    case Error => "ERROR"
    case Warning => "WARNING"
    case Info => "INFO"
    case Debug => "DEBUG"
    case Verbose => "VERBOSE"
  }

  /** `name in _LEVELS`, and which level it is. */
  function LevelNamed(name: string): (l: Option<Severity>)
    ensures l.Some? ==> Name(l.value) == name
  {
    if name == "ERROR" then Some(Error)
    else if name == "WARNING" then Some(Warning)
    else if name == "INFO" then Some(Info)
    else if name == "DEBUG" then Some(Debug)
    else if name == "VERBOSE" then Some(Verbose)
    else None
  }

  /** `_ALIASES.get(name)`. */
  function Alias(name: string): Option<Severity>
  {
    if name == "WARN" then Some(Warning)
    else if name == "ERR" then Some(Error)
    else if name == "TRACE" then Some(Verbose)
    else None
  }

  /** `_DEFAULT_LEVEL`. */
  const DEFAULT_LEVEL: Severity := Info
  /** `_LEVEL_SOURCE` once the level is loaded: the variable it came from. */
  const LEVEL_SOURCE: string := "LOG_LEVEL"

  /** `raw.strip().upper()`. */
  function Normalize(raw: string): string
  {
    Upper(Strip(raw))
  }

  /** A name `_load_level` does not warn about: a level or an alias. */
  predicate Known(name: string)
  {
    LevelNamed(name).Some? || Alias(name).Some?
  }

  /** `_resolve_level_name(raw)` (logutil.py lines 35-42): unset or empty gives
      the default; otherwise the normalised name, through the alias table, if
      that is a level, and the default if not. The result is always a key of
      the table, so it is given as the level it names. */
  function ResolveLevelName(raw: Option<string>): Severity
  {
    if raw.None? || raw.value == "" then DEFAULT_LEVEL
    else
      var n := Normalize(raw.value);
      match Alias(n)
      case Some(l) => l
      case None => if LevelNamed(n).Some? then LevelNamed(n).value else DEFAULT_LEVEL
  }

  /** `_sink_path()` (logutil.py lines 25-32) given `LOG_SINK`: no file when the
      variable is unset, blank, or names standard error in any letter case;
      otherwise the stripped name. */
  function SinkPath(raw: Option<string>): (path: Option<string>)
    ensures path.None? <==>
      raw.None? || AllSpace(raw.value) || Lower(Strip(raw.value)) == "stderr" || Lower(Strip(raw.value)) == "sys.stderr"
    ensures path.Some? ==> path.value == Strip(raw.value) && path.value != []
  {
    if raw.None? || raw.value == "" then None
    else
      var name := Strip(raw.value);
      if name == "" || Lower(name) == "stderr" || Lower(name) == "sys.stderr" then None
      else Some(name)
  }

  /** Where `_emit` writes a line. */
  datatype Dest = SinkFile(path: string) | Stderr

  /** `_emit`'s choice (lines 73-82): the sink file when there is one and it can
      be opened for appending, standard error otherwise. `unopenable` is the set
      of paths the host refuses to open. */
  function Destination(sinkVar: Option<string>, unopenable: set<string>): (d: Dest)
    ensures d.SinkFile? <==> SinkPath(sinkVar).Some? && SinkPath(sinkVar).value !in unopenable
    ensures d.SinkFile? ==> d.path == SinkPath(sinkVar).value
  {
    match SinkPath(sinkVar)
    case Some(path) => if path in unopenable then Stderr else SinkFile(path)
    case None => Stderr
  }

  /** One line written by `_emit`: its destination, its level label and its
      message. The timestamp is not modelled. */
  datatype Written = Written(dest: Dest, level: string, msg: string)

  /** `_load_level` warns exactly when `LOG_LEVEL` is set and its normalised
      value is neither a level nor an alias (lines 52-58). */
  predicate WarnsUnknown(levelVar: Option<string>)
  {
    levelVar.Some? && !Known(Normalize(levelVar.value))
  }

  /** The warning text, with `{raw!r}` written as the value between single quotes. */
  function UnknownLevelMessage(raw: string): string
  {
    "unknown log level '" + raw + "' from " + LEVEL_SOURCE + ", defaulting to " + Name(DEFAULT_LEVEL)
  }

  /** What `_load_level` writes. */
  function LoadOutput(levelVar: Option<string>, dest: Dest): seq<Written>
  {
    if WarnsUnknown(levelVar) then [Written(dest, "WARNING", UnknownLevelMessage(levelVar.value))] else []
  }

  /** What fetching the level writes: the load's warning, on first use only. */
  function FetchOutput(cached: Option<nat>, levelVar: Option<string>, dest: Dest): seq<Written>
  {
    if cached.None? then LoadOutput(levelVar, dest) else []
  }

  /** `log(level, msg)` writes its line exactly when the rank of the resolved
      level is at most the current rank (lines 85-88). */
  predicate Emits(level: string, current: nat)
  {
    Rank(ResolveLevelName(Some(level))) <= current
  }

  /** The line `log(level, msg)` writes once the threshold is known: the
      message under the resolved level's name, or nothing. */
  function LogLine(level: string, msg: string, threshold: nat, dest: Dest): seq<Written>
  {
    if Emits(level, threshold) then [Written(dest, Name(ResolveLevelName(Some(level))), msg)] else []
  }

  // ------------------------------------------------------------ properties

  /** The cases of `_resolve_level_name`: unset gives the default; a set value
      whose normal form is a level gives that level, one that is an alias gives
      the level it stands for, and anything else gives the default. An empty
      value normalises to the empty name, which is neither. */
  lemma ResolveLevelNameCases(raw: Option<string>)
    ensures raw.None? ==> ResolveLevelName(raw) == DEFAULT_LEVEL
    ensures raw.Some? && LevelNamed(Normalize(raw.value)).Some? ==>
      ResolveLevelName(raw) == LevelNamed(Normalize(raw.value)).value
    ensures raw.Some? && Alias(Normalize(raw.value)).Some? ==>
      ResolveLevelName(raw) == Alias(Normalize(raw.value)).value
    ensures raw.Some? && !Known(Normalize(raw.value)) ==> ResolveLevelName(raw) == DEFAULT_LEVEL
  {
  }

  lemma {:induction false} UpperOfUpper(s: string)
    requires forall i :: 0 <= i < |s| ==> 'A' <= s[i] <= 'Z'
    ensures Upper(s) == s
  {
    if s != [] {
      UpperOfUpper(s[1..]);
    }
  }

  /** A name in capital letters is its own normal form. */
  lemma NormalizeCapitals(name: string)
    requires forall i :: 0 <= i < |name| ==> 'A' <= name[i] <= 'Z'
    ensures Normalize(name) == name
  {
    if name != [] {
      assert !IsSpace(name[0]) && !IsSpace(name[|name| - 1]);
    }
    assert Strip(name) == name;
    UpperOfUpper(name);
  }

  /** A level's name is its own normal form. */
  lemma NormalizeCanonical(l: Severity)
    ensures Normalize(Name(l)) == Name(l)
  {
    var name := Name(l);
    assert forall i :: 0 <= i < |name| ==> 'A' <= name[i] <= 'Z';
    NormalizeCapitals(name);
  }

  /** Resolving a level's name gives that level: the label `log` writes is a
      fixed point, so `log(name, ...)` with a canonical name writes that name. */
  lemma ResolveIdempotent(l: Severity)
    ensures ResolveLevelName(Some(Name(l))) == l
  {
    NormalizeCanonical(l);
    ResolveLevelNameCases(Some(Name(l)));
  }

  /** The warning is written exactly when a value was set and not honoured: the
      level fell back to the default although the value was not `INFO` itself.
      An empty `LOG_LEVEL` is set, so it warns. */
  lemma WarnsExactlyWhenIgnored(levelVar: Option<string>)
    ensures WarnsUnknown(levelVar) <==>
      levelVar.Some? && ResolveLevelName(levelVar) == DEFAULT_LEVEL && Normalize(levelVar.value) != Name(DEFAULT_LEVEL)
  {
    ResolveLevelNameCases(levelVar);
  }

  /** The alias case of the level test: `"warn"` is written with the label `WARNING`. */
  lemma AliasResolves(raw: string)
    requires raw == "warn"
    ensures Name(ResolveLevelName(Some(raw))) == "WARNING"
  {
    assert !IsSpace(raw[0]) && !IsSpace(raw[3]);
    assert Strip(raw) == raw;
    var u := Upper(raw);
    assert |u| == 4 && u[0] == 'W' && u[1] == 'A' && u[2] == 'R' && u[3] == 'N';
    assert u == "WARN";
  }

  /** Whenever a level is written, every more severe level is written too. */
  lemma MoreSevereAlsoEmitted(level: string, other: string, current: nat)
    requires Emits(level, current)
    requires Rank(ResolveLevelName(Some(other))) <= Rank(ResolveLevelName(Some(level)))
    ensures Emits(other, current)
  {
  }

  /** At every threshold errors are written, and verbose lines only at the
      verbose threshold. */
  lemma ThresholdEnds(current: nat)
    requires current <= 4
    ensures Emits(Name(Error), current)
    ensures Emits(Name(Verbose), current) <==> current == 4
  {
    ResolveIdempotent(Error);
    ResolveIdempotent(Verbose);
  }

  // ------------------------------------------------------------ the logger

  /** The module state of logutil.py together with the environment it reads. */
  class Logger {
    /** `_CURRENT_LEVEL`: unset until first needed. */
    var current: Option<nat>
    /** `_LEVEL_SOURCE`. */
    var source: Option<string>
    /** Every line `_emit` has written, in order. */
    var written: seq<Written>
    /** `LOG_LEVEL` and `LOG_SINK` in the environment, and the paths that cannot
        be opened for appending. */
    const levelVar: Option<string>
    const sinkVar: Option<string>
    const unopenable: set<string>

    /** A loaded level is a rank of the table. */
    ghost predicate Valid()
      reads this
    {
      current.Some? ==> current.value <= 4
    }

    /** The module as imported: nothing loaded, nothing written. */
    constructor (levelVar: Option<string>, sinkVar: Option<string>, unopenable: set<string>)
      ensures Valid()
      ensures current.None? && source.None? && written == []
      ensures this.levelVar == levelVar && this.sinkVar == sinkVar && this.unopenable == unopenable
    {
      current := None;
      source := None;
      written := [];
      this.levelVar := levelVar;
      this.sinkVar := sinkVar;
      this.unopenable := unopenable;
    }

    /** `_emit(level, msg)` (lines 71-82). */
    method Emit(level: string, msg: string)
      modifies this`written
      ensures written == old(written) + [Written(Destination(sinkVar, unopenable), level, msg)]
    {
      var dest := Stderr;
      var sink := SinkPath(sinkVar);
      if sink.Some? && sink.value !in unopenable {
        dest := SinkFile(sink.value);
      }
      written := written + [Written(dest, level, msg)];
    }

    /** `_load_level()` (lines 45-58): resolve `LOG_LEVEL`, store its rank and
        source, then warn if the value was not recognised. */
    method LoadLevel()
      modifies this`current, this`source, this`written
      ensures Valid()
      ensures current == Some(Rank(ResolveLevelName(levelVar))) && source == Some(LEVEL_SOURCE)
      ensures written == old(written) + LoadOutput(levelVar, Destination(sinkVar, unopenable))
    {
      var name := ResolveLevelName(levelVar);
      current := Some(Rank(name));
      source := Some(LEVEL_SOURCE);
      if levelVar.Some? {
        var rawName := Normalize(levelVar.value);
        if LevelNamed(rawName).None? && Alias(rawName).None? {
          Emit("WARNING", UnknownLevelMessage(levelVar.value));
        }
      }
    }

    /** `_level()` (lines 61-64): loads on the first call only; afterwards the
        cached rank is returned and nothing is read or written. */
    method Level() returns (r: nat)
      requires Valid()
      modifies this`current, this`source, this`written
      ensures Valid() && current == Some(r)
      ensures old(current).Some? ==> r == old(current).value && source == old(source)
      ensures old(current).None? ==> r == Rank(ResolveLevelName(levelVar)) && source == Some(LEVEL_SOURCE)
      ensures written == old(written) + FetchOutput(old(current), levelVar, Destination(sinkVar, unopenable))
    {
      if current.None? {
        LoadLevel();
      }
      r := current.value;
    }

    /** `log(level, msg)` (lines 85-88): the level is resolved, the current rank
        fetched (loading it, and perhaps warning, on first use), and the line is
        written under the resolved name when its rank is within the threshold. */
    method Log(level: string, msg: string)
      requires Valid()
      modifies this`current, this`source, this`written
      ensures Valid() && current.Some?
      ensures old(current).Some? ==> current == old(current) && source == old(source)
      ensures old(current).None? ==> current == Some(Rank(ResolveLevelName(levelVar))) && source == Some(LEVEL_SOURCE)
      ensures written ==
        old(written) + FetchOutput(old(current), levelVar, Destination(sinkVar, unopenable))
        + LogLine(level, msg, current.value, Destination(sinkVar, unopenable))
    {
      var name := ResolveLevelName(Some(level));
      var threshold := Level();
      if Rank(name) <= threshold {
        Emit(Name(name), msg);
      }
    }

    /** `error(msg)`: written at every threshold, labelled `ERROR`. */
    method Error(msg: string)
      requires Valid()
      modifies this`current, this`source, this`written
      ensures Valid() && current.Some?
      ensures written ==
        old(written)
        + FetchOutput(old(current), levelVar, Destination(sinkVar, unopenable))
        + [Written(Destination(sinkVar, unopenable), "ERROR", msg)]
    {
      ResolveIdempotent(Severity.Error);
      Log("ERROR", msg);
    }

    /** `warning(msg)`: labelled `WARNING`, written from rank 1 on. */
    method Warning(msg: string)
      requires Valid()
      modifies this`current, this`source, this`written
      ensures Valid() && current.Some?
      ensures written ==
        old(written)
        + FetchOutput(old(current), levelVar, Destination(sinkVar, unopenable))
        + (if current.value >= 1 then [Written(Destination(sinkVar, unopenable), "WARNING", msg)] else [])
    {
      ResolveIdempotent(Severity.Warning);
      Log("WARNING", msg);
    }

    /** `info(msg)`: labelled `INFO`, written from rank 2 on. */
    method Info(msg: string)
      requires Valid()
      modifies this`current, this`source, this`written
      ensures Valid() && current.Some?
      ensures written ==
        old(written)
        + FetchOutput(old(current), levelVar, Destination(sinkVar, unopenable))
        + (if current.value >= 2 then [Written(Destination(sinkVar, unopenable), "INFO", msg)] else [])
    {
      ResolveIdempotent(Severity.Info);
      Log("INFO", msg);
    }

    /** `debug(msg)`: labelled `DEBUG`, written from rank 3 on. */
    method Debug(msg: string)
      requires Valid()
      modifies this`current, this`source, this`written
      ensures Valid() && current.Some?
      ensures written ==
        old(written)
        + FetchOutput(old(current), levelVar, Destination(sinkVar, unopenable))
        + (if current.value >= 3 then [Written(Destination(sinkVar, unopenable), "DEBUG", msg)] else [])
    {
      ResolveIdempotent(Severity.Debug);
      Log("DEBUG", msg);
    }

    /** `verbose(msg)`: labelled `VERBOSE`, written only at rank 4. */
    method Verbose(msg: string)
      requires Valid()
      modifies this`current, this`source, this`written
      ensures Valid() && current.Some?
      ensures written ==
        old(written)
        + FetchOutput(old(current), levelVar, Destination(sinkVar, unopenable))
        + (if current.value >= 4 then [Written(Destination(sinkVar, unopenable), "VERBOSE", msg)] else [])
    {
      ResolveIdempotent(Severity.Verbose);
      Log("VERBOSE", msg);
    }
  }
}
