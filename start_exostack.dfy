/** The launcher's configuration loader: an env file of `KEY=value` lines, or a
    fixed set of defaults when the file is missing or malformed. */
module ExoStackLauncher {
  import opened Common

  /** The configuration used when the env file is missing or cannot be parsed. */
  const DefaultConfig: map<string, string> := map[
    "EXOSTACK_HUB_URL" := "http://localhost:8000",
    "EXOSTACK_AGENT_URL" := "http://localhost:8001",
    "EXOSTACK_DATABASE_URL" := "sqlite:///./exostack.db",
    "EXOSTACK_REDIS_URL" := "redis://localhost:6379/0",
    "EXOSTACK_ENABLE_GPU" := "true",
    "EXOSTACK_MAX_CONCURRENT_TASKS" := "10",
    "EXOSTACK_LOG_LEVEL" := "INFO"
  ]

  const DefaultConfigPath := ".env.exostack"

  /** What one line of the file contributes. */
  datatype LineOutcome = Skip | Entry(key: string, value: string) | Malformed

  /** One line of the file: skipped, split into a key and a value, or malformed. */
  function ParseLine(line: string): LineOutcome
  {
    var s := Strip(line);
    if s == "" || StartsWith(line, "#") then Skip
    else
      var k := IndexOf(s, '=');
      if k == |s| then Malformed else Entry(s[..k], s[k + 1..])
  }

  /** A line is skipped when it is blank or its raw text starts with '#';
      otherwise its stripped text is split at the first '='. Without an '=' the
      two-name unpacking raises. */
  lemma ParseLineMeaning(line: string)
    ensures ParseLine(line).Skip? <==> Strip(line) == "" || StartsWith(line, "#")
    ensures ParseLine(line).Entry? ==>
      Strip(line) == ParseLine(line).key + "=" + ParseLine(line).value && '=' !in ParseLine(line).key
    ensures ParseLine(line).Malformed? <==> Strip(line) != "" && !StartsWith(line, "#") && '=' !in Strip(line)
  {
    var s := Strip(line);
    if s != "" && !StartsWith(line, "#") {
      var k := IndexOf(s, '=');
      if k == |s| {
        forall c | c in s ensures c != '=' {
          var j :| 0 <= j < |s| && s[j] == c;
        }
      } else {
        assert s == s[..k] + "=" + s[k + 1..];
        forall j | 0 <= j < k ensures s[..k][j] != '=' { }
      }
    }
  }

  /** The outcome of every line of the file, in order. */
  function Outcomes(lines: seq<string>): (r: seq<LineOutcome>)
    ensures |r| == |lines| && forall i :: 0 <= i < |lines| ==> r[i] == ParseLine(lines[i])
  {
    seq(|lines|, i requires 0 <= i < |lines| => ParseLine(lines[i]))
  }

  /** The dictionary built from the first `n` line outcomes, or None once a
      malformed line has aborted the loop. */
  function Entries(outcomes: seq<LineOutcome>, n: nat): Option<map<string, string>>
    requires n <= |outcomes|
  {
    if n == 0 then Some(map[])
    else
      match Entries(outcomes, n - 1)
      case None => None
      case Some(m) =>
        match outcomes[n - 1]
        case Skip => Some(m)
        case Entry(k, v) => Some(m[k := v])
        case Malformed => None
  }

  /** The configuration `_load_config` returns: `file` is None when the file does
      not exist, otherwise its lines. */
  function LoadedConfig(file: Option<seq<string>>): map<string, string>
  {
    match file
    case None => DefaultConfig
    case Some(lines) =>
      var outcomes := Outcomes(lines);
      match Entries(outcomes, |outcomes|)
      case None => DefaultConfig
      case Some(m) => m
  }

  lemma {:induction false} AbortStays(outcomes: seq<LineOutcome>, i: nat, n: nat)
    requires i <= n <= |outcomes|
    requires Entries(outcomes, i).None?
    ensures Entries(outcomes, n).None?
    decreases n - i
  {
    if i < n { AbortStays(outcomes, i + 1, n); }
  }

  /** One line without '=' anywhere in the file discards every entry read so far
      and yields the seven defaults. */
  lemma {:induction false} MalformedLineGivesDefaults(lines: seq<string>, i: nat)
    requires i < |lines| && ParseLine(lines[i]).Malformed?
    ensures LoadedConfig(Some(lines)) == DefaultConfig
  {
    var outcomes := Outcomes(lines);
    if Entries(outcomes, i).Some? {
      assert Entries(outcomes, i + 1).None?;
      AbortStays(outcomes, i + 1, |outcomes|);
    } else {
      AbortStays(outcomes, i, |outcomes|);
    }
  }

  predicate Defines(o: LineOutcome, key: string)
  {
    o.Entry? && o.key == key
  }

  /** Without malformed lines a key is configured iff some line defines it, and its
      value is the one on the last such line. */
  lemma {:induction false} EntriesLookup(outcomes: seq<LineOutcome>, n: nat, key: string)
    requires n <= |outcomes|
    requires forall i :: 0 <= i < n ==> !outcomes[i].Malformed?
    ensures Entries(outcomes, n).Some?
    ensures key in Entries(outcomes, n).value <==> exists i :: 0 <= i < n && Defines(outcomes[i], key)
    ensures forall i ::
      (0 <= i < n && Defines(outcomes[i], key) && forall j :: i < j < n ==> !Defines(outcomes[j], key)) ==>
        Entries(outcomes, n).value[key] == outcomes[i].value
  {
    if n > 0 {
      EntriesLookup(outcomes, n - 1, key);
    }
  }

  /** The same facts for a whole file read by `_load_config`. */
  lemma WellFormedFileLookup(lines: seq<string>, key: string)
    requires forall i :: 0 <= i < |lines| ==> !ParseLine(lines[i]).Malformed?
    ensures key in LoadedConfig(Some(lines)) <==> exists i :: 0 <= i < |lines| && Defines(ParseLine(lines[i]), key)
    ensures forall i ::
      (0 <= i < |lines| && Defines(ParseLine(lines[i]), key) &&
       forall j :: i < j < |lines| ==> !Defines(ParseLine(lines[j]), key)) ==>
        LoadedConfig(Some(lines))[key] == ParseLine(lines[i]).value
  {
    var outcomes := Outcomes(lines);
    assert forall i :: 0 <= i < |outcomes| ==> !outcomes[i].Malformed?;
    EntriesLookup(outcomes, |outcomes|, key);
    assert forall i :: 0 <= i < |lines| ==> Defines(ParseLine(lines[i]), key) == Defines(outcomes[i], key);
  }

  class ExoStackManager {
    const configPath: string
    var config: map<string, string>

    /** `file` stands for the file system: None when `configPath` does not exist,
        otherwise the file's lines. An empty path falls back to the default name. */
    constructor (configPath: string, file: Option<seq<string>>)
      ensures this.configPath == (if configPath == "" then DefaultConfigPath else configPath)
      ensures config == LoadedConfig(file)
    {
      this.configPath := if configPath == "" then DefaultConfigPath else configPath;
      new;
      config := LoadConfig(file);
    }

    /** `_load_config`. */
    method LoadConfig(file: Option<seq<string>>) returns (config: map<string, string>)
      ensures config == LoadedConfig(file)
    {
      if file.None? {
        return DefaultConfig;
      }
      var entries := ReadEntries(Outcomes(file.value));
      config := if entries.Some? then entries.value else DefaultConfig;
    }

    /** The loop of `_load_config`: fills a dictionary line by line and stops at
        the first malformed line. */
    method ReadEntries(outcomes: seq<LineOutcome>) returns (r: Option<map<string, string>>)
      ensures r == Entries(outcomes, |outcomes|)
    {
      var entries := map[];
      var i := 0;
      while i < |outcomes|
        invariant i <= |outcomes|
        invariant Entries(outcomes, i) == Some(entries)
      {
        var outcome := outcomes[i];
        if outcome.Malformed? {
          AbortStays(outcomes, i + 1, |outcomes|);
          return None;
        }
        if outcome.Entry? {
          entries := entries[outcome.key := outcome.value];
        }
        i := i + 1;
      }
      r := Some(entries);
    }
  }
}
