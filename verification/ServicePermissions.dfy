/**
 * Who may use a name, and who may connect to whom: the decisions the hub takes from the service files it
 * finds in its service directories. Files and JSON values are abstract; everything the decisions branch on
 * is kept.
 */
module ServicePermissions {
  import opened Wrappers
  import opened DotSplit
  import opened ServiceNames

  const DEFAULT_SERVICE_FILES_DIR := "/etc/krossbar/services/"
  const ALLOWED_EXECS_KEY := "exec"
  const INCOMING_CONNS_KEY := "incoming_connections"
  const MONITOR_SERVICE_NAME := "krossbar.monitor"
  const CONNECT_SERVICE_NAME := "krossbar.connect"

  datatype Json =
    | Text(value: string)
    | Array(items: seq<Json>)
    | Object(fields: map<string, Json>)
    | Other

  /** What trying to read one service file can come to. */
  datatype File = Absent | Unopenable | Unreadable | Unparsable | Parsed(json: Json)

  /** The service files on disk at one moment, by directory and service name. */
  type Files = map<(string, string), File>

  /** What the texts that are glob patterns match. A text that is no key is no glob pattern. */
  type Globs = imap<string, iset<string>>

  /** The process behind a connection: its credentials, and the executables that can be read off for processes. */
  datatype Process = Process(pid: Option<nat>, exeLinks: map<nat, string>) {

    /** The executable, if the process is known and its link can be read. */
    function Executable(): Option<string> {
      if pid.Some? && pid.value in exeLinks then Some(exeLinks[pid.value]) else None
    }
  }

  datatype FileError = ServiceNotFound | NotAllowed

  function Lookup(files: Files, dir: string, service: string): File {
    if (dir, service) in files then files[(dir, service)] else Absent
  }

  predicate Openable(f: File) {
    !f.Absent? && !f.Unopenable?
  }

  datatype Permissions = Permissions(dirs: seq<string>, privilegedServices: bool, globs: Globs) {

    static method New(additional: seq<string>, privilegedServices: bool, globs: Globs) returns (p: Permissions)
      ensures p == Permissions(["/etc/krossbar/services/"] + additional, privilegedServices, globs)
    {
      var dirs := [DEFAULT_SERVICE_FILES_DIR];
      for i := 0 to |additional|
        invariant dirs == [DEFAULT_SERVICE_FILES_DIR] + additional[..i]
      {
        dirs := dirs + [additional[i]];
      }
      return Permissions(dirs, privilegedServices, globs);
    }

    predicate IsPrivileged(service: string) {
      privilegedServices && (service == MONITOR_SERVICE_NAME || service == CONNECT_SERVICE_NAME)
    }

    /** Some directory holds a file for the service, openable or not. */
    ghost predicate HasFile(files: Files, service: string) {
      exists i :: 0 <= i < |dirs| && !Lookup(files, dirs[i], service).Absent?
    }

    /** The file that counts: the first one, in directory order, that can be opened. */
    ghost predicate FirstOpenable(files: Files, service: string, i: int) {
      && 0 <= i < |dirs|
      && Openable(Lookup(files, dirs[i], service))
      && forall j :: 0 <= j < i ==> !Openable(Lookup(files, dirs[j], service))
    }

    /** The whole decision, stated without its loops. */
    ghost predicate Permitted(files: Files, client: string, target: string) {
      || IsPrivileged(client)
      || exists i ::
           && FirstOpenable(files, target, i)
           && ServiceFileAdmits(Lookup(files, dirs[i], target), client)
    }

    /**
     * The whole decision about a name, stated without its branches. `exec` is the executable of the
     * process, None when it cannot be found out.
     */
    ghost predicate NameAllowed(files: Files, exec: Option<string>, service: string) {
      && exec.Some?
      && exists i :: FirstOpenable(files, service, i) &&
          ServiceFileRuns(Lookup(files, dirs[i], service), exec.value, globs)
    }

    /** Some directory has a file for the service that opens, and this is the first. */
    ghost predicate Decides(files: Files, service: string, i: int) {
      && 0 <= i < |dirs| && (dirs[i], service) in files
      && (var file := files[(dirs[i], service)]; file.Unreadable? || file.Unparsable? || file.Parsed?)
      && forall j :: 0 <= j < i && (dirs[j], service) in files ==>
        files[(dirs[j], service)].Absent? || files[(dirs[j], service)].Unopenable?
    }

    /**
     * A name may be used if and only if the executable is known, the file that decides is an object with a
     * text under "exec", and that text is a glob pattern which the executable matches.
     */
    lemma NameDecision(files: Files, exec: Option<string>, service: string)
      ensures exec.None? || (forall i :: !Decides(files, service, i)) ==> !NameAllowed(files, exec, service)
      ensures forall i :: Decides(files, service, i) && exec.Some? ==>
        var file := files[(dirs[i], service)];
        NameAllowed(files, exec, service) <==>
          && file.Parsed? && file.json.Object? && "exec" in file.json.fields && file.json.fields["exec"].Text?
          && file.json.fields["exec"].value in globs && exec.value in globs[file.json.fields["exec"].value]
    {
      forall i ensures FirstOpenable(files, service, i) <==> Decides(files, service, i) {
        DecidesIsFirst(files, service, i);
      }
      assert forall i, j :: FirstOpenable(files, service, i) && FirstOpenable(files, service, j) ==> i == j;
    }

    lemma DecidesIsFirst(files: Files, service: string, i: int)
      ensures FirstOpenable(files, service, i) <==> Decides(files, service, i)
    {
    }

    /**
     * A connection is permitted to the monitor and the connect service, if they are privileged, for any
     * files. For everybody else, it is if and only if the file that decides lists only valid patterns, the
     * client's name is well formed, and the text of one of the patterns matches it.
     */
    lemma ConnectionDecision(files: Files, client: string, target: string)
      ensures privilegedServices && (client == "krossbar.monitor" || client == "krossbar.connect") ==>
        Permitted(files, client, target)
      ensures !(privilegedServices && (client == "krossbar.monitor" || client == "krossbar.connect")) ==>
        && ((forall i :: !Decides(files, target, i)) ==> !Permitted(files, client, target))
        && (forall i :: Decides(files, target, i) ==>
              var file := files[(dirs[i], target)];
              Permitted(files, client, target) <==>
                && file.Parsed? && file.json.Object? && "incoming_connections" in file.json.fields
                && file.json.fields["incoming_connections"].Array?
                && TextsAdmit(file.json.fields["incoming_connections"].items, client))
    {
      forall i ensures FirstOpenable(files, target, i) <==> Decides(files, target, i) {
        DecidesIsFirst(files, target, i);
      }
      assert forall i, j :: FirstOpenable(files, target, i) && FirstOpenable(files, target, j) ==> i == j;
      forall entries: seq<Json> ensures ListAdmits(entries, client) <==> TextsAdmit(entries, client) {
        ListInText(entries, client);
      }
    }

    /** A service has a file if and only if one of the directories has, whether it opens or not. */
    lemma FileDecision(files: Files, service: string)
      ensures HasFile(files, service) <==>
        exists i :: 0 <= i < |dirs| && (dirs[i], service) in files && !files[(dirs[i], service)].Absent?
    {
      if HasFile(files, service) {
        var i :| 0 <= i < |dirs| && !Lookup(files, dirs[i], service).Absent?;
        assert (dirs[i], service) in files;
      }
      if i :| 0 <= i < |dirs| && (dirs[i], service) in files && !files[(dirs[i], service)].Absent? {
        assert !Lookup(files, dirs[i], service).Absent?;
      }
    }

    function FindOpenable(files: Files, service: string, i: nat): (r: Option<File>)
      requires i <= |dirs|
      ensures r.Some? ==> Openable(r.value) && exists k ::
          && i <= k < |dirs| && r.value == Lookup(files, dirs[k], service)
          && forall j :: i <= j < k ==> !Openable(Lookup(files, dirs[j], service))
      ensures r.None? ==> forall j :: i <= j < |dirs| ==> !Openable(Lookup(files, dirs[j], service))
      decreases |dirs| - i
    {
      if i == |dirs| then None
      else
        var f := Lookup(files, dirs[i], service);
        if Openable(f) then Some(f) else FindOpenable(files, service, i + 1)
    }

    function ParseServiceFile(files: Files, service: string): Result<Json, FileError> {
      match FindOpenable(files, service, 0)
      case None => Err(ServiceNotFound)
      case Some(Parsed(json)) => Ok(json)
      case Some(_) => Err(NotAllowed)
    }

    lemma ServiceFileFound(files: Files, service: string)
      ensures ParseServiceFile(files, service).Ok? <==>
        exists i :: FirstOpenable(files, service, i) && Lookup(files, dirs[i], service).Parsed?
      ensures forall i :: FirstOpenable(files, service, i) && ParseServiceFile(files, service).Ok? ==>
        Lookup(files, dirs[i], service) == Parsed(ParseServiceFile(files, service).value)
    {
      var r := FindOpenable(files, service, 0);
      if r.Some? {
        var k :| 0 <= k < |dirs| && r.value == Lookup(files, dirs[k], service)
          && forall j :: 0 <= j < k ==> !Openable(Lookup(files, dirs[j], service));
        assert FirstOpenable(files, service, k);
        assert forall i :: FirstOpenable(files, service, i) ==> i == k;
      }
    }

    /** "Not found" is the complaint if and only if no file of the service opens. */
    lemma NotFoundDecision(files: Files, service: string)
      ensures ParseServiceFile(files, service) == Err(ServiceNotFound) <==> forall i :: !Decides(files, service, i)
    {
      forall i ensures FirstOpenable(files, service, i) <==> Decides(files, service, i) {
        DecidesIsFirst(files, service, i);
      }
      var r := FindOpenable(files, service, 0);
      if r.Some? {
        var k :| 0 <= k < |dirs| && r.value == Lookup(files, dirs[k], service)
          && forall j :: 0 <= j < k ==> !Openable(Lookup(files, dirs[j], service));
        assert FirstOpenable(files, service, k);
      }
    }

    lemma PermittedByFile(files: Files, client: string, target: string)
      requires !IsPrivileged(client)
      ensures Permitted(files, client, target) <==>
        && ParseServiceFile(files, target).Ok?
        && HasConnectionList(ParseServiceFile(files, target).value)
        && ListAdmits(ConnectionList(ParseServiceFile(files, target).value), client)
    {
      ServiceFileFound(files, target);
    }

    method ReadAllowedExecs(files: Files, service: string) returns (r: Result<string, FileError>)
      ensures r.Ok? <==>
        && ParseServiceFile(files, service).Ok?
        && HasExec(ParseServiceFile(files, service).value)
        && ExecOf(ParseServiceFile(files, service).value) in globs
      ensures r.Ok? ==> r.value == ExecOf(ParseServiceFile(files, service).value)
      ensures r.Err? ==> (r.error.ServiceNotFound? <==> forall i :: !Decides(files, service, i))
    {
      NotFoundDecision(files, service);
      var parsed := ParseServiceFile(files, service);
      if parsed.Err? {
        return Err(parsed.error);
      }
      var json := parsed.value;
      if !(json.Object? && ALLOWED_EXECS_KEY in json.fields) {
        return Err(NotAllowed);
      }
      if !json.fields[ALLOWED_EXECS_KEY].Text? {
        return Err(NotAllowed);
      }
      var text := json.fields[ALLOWED_EXECS_KEY].value;
      if text !in globs {
        return Err(NotAllowed);
      }
      return Ok(text);
    }

    method CheckServiceNameAllowed(files: Files, process: Process, service: string) returns (allowed: bool)
      ensures allowed <==> NameAllowed(files, process.Executable(), service)
      ensures allowed <==>
        && process.pid.Some? && process.pid.value in process.exeLinks
        && exists i ::
          && Decides(files, service, i)
          && var file, path := files[(dirs[i], service)], process.exeLinks[process.pid.value];
             && file.Parsed? && file.json.Object? && "exec" in file.json.fields && file.json.fields["exec"].Text?
             && file.json.fields["exec"].value in globs && path in globs[file.json.fields["exec"].value]
    {
      NameDecision(files, process.Executable(), service);
      if process.pid.None? {
        return false;
      }
      if process.pid.value !in process.exeLinks {
        return false;
      }
      var exec := process.exeLinks[process.pid.value];
      ServiceFileFound(files, service);
      var pattern := ReadAllowedExecs(files, service);
      if pattern.Err? {
        return false;
      }
      return exec in globs[pattern.value];
    }

    method ReadAllowedConnections(files: Files, service: string) returns (r: Result<seq<NamePattern>, FileError>)
      ensures r.Ok? <==>
        && ParseServiceFile(files, service).Ok?
        && HasConnectionList(ParseServiceFile(files, service).value)
        && ValidEntries(ConnectionList(ParseServiceFile(files, service).value))
      ensures r.Ok? ==> PatternsOf(ConnectionList(ParseServiceFile(files, service).value), r.value)
      ensures r.Err? ==> (r.error.ServiceNotFound? <==> forall i :: !Decides(files, service, i))
    {
      NotFoundDecision(files, service);
      var parsed := ParseServiceFile(files, service);
      if parsed.Err? {
        return Err(parsed.error);
      }
      var json := parsed.value;
      if !(json.Object? && INCOMING_CONNS_KEY in json.fields) {
        return Err(NotAllowed);
      }
      if !json.fields[INCOMING_CONNS_KEY].Array? {
        return Err(NotAllowed);
      }
      var entries := json.fields[INCOMING_CONNS_KEY].items;
      var result: seq<NamePattern> := [];
      for i := 0 to |entries|
        invariant |result| == i
        invariant ValidEntries(entries[..i]) && PatternsOf(entries[..i], result)
      {
        if !entries[i].Text? {
          assert !ValidEntry(entries[i]);
          return Err(NotAllowed);
        }
        var pattern := FromString(entries[i].value);
        ParseAccepts(entries[i].value, pattern);
        if pattern.Err? {
          assert !ValidEntry(entries[i]);
          return Err(NotAllowed);
        }
        PatternsSnoc(entries, i, result, pattern.value);
        result := result + [pattern.value];
      }
      assert entries[..|entries|] == entries;
      return Ok(result);
    }

    method CheckConnectionAllowed(files: Files, client: string, target: string) returns (allowed: bool)
      ensures allowed <==> Permitted(files, client, target)
      ensures allowed <==>
        || (privilegedServices && (client == "krossbar.monitor" || client == "krossbar.connect"))
        || exists i ::
          && Decides(files, target, i)
          && var file := files[(dirs[i], target)];
             && file.Parsed? && file.json.Object? && "incoming_connections" in file.json.fields
             && file.json.fields["incoming_connections"].Array?
             && TextsAdmit(file.json.fields["incoming_connections"].items, client)
    {
      ConnectionDecision(files, client, target);
      if IsPrivileged(client) {
        return true;
      }
      PermittedByFile(files, client, target);
      var patterns := ReadAllowedConnections(files, target);
      if patterns.Err? {
        return false;
      }
      AdmittedByPattern(ConnectionList(ParseServiceFile(files, target).value), patterns.value, client);
      allowed := SomePatternMatches(patterns.value, client);
    }

    method CheckServiceExists(files: Files, service: string) returns (exist: bool)
      ensures exist <==> HasFile(files, service)
      ensures exist <==>
        exists i :: 0 <= i < |dirs| && (dirs[i], service) in files && !files[(dirs[i], service)].Absent?
    {
      FileDecision(files, service);
      for i := 0 to |dirs|
        invariant forall j :: 0 <= j < i ==> Lookup(files, dirs[j], service).Absent?
      {
        if !Lookup(files, dirs[i], service).Absent? {
          return true;
        }
      }
      return false;
    }

    /** A permitted client that is not privileged proves that the target has a service file. */
    lemma PermittedHasFile(files: Files, client: string, target: string)
      requires Permitted(files, client, target) && !IsPrivileged(client)
      ensures HasFile(files, target)
    {
      var i :| FirstOpenable(files, target, i) && ServiceFileAdmits(Lookup(files, dirs[i], target), client);
    }

    /** Only the first openable file of the target counts: nothing else on disk changes the answer. */
    lemma OnlyFirstFileCounts(files: Files, other: Files, client: string, target: string, i: int, j: int)
      requires FirstOpenable(files, target, i) && FirstOpenable(other, target, j)
      requires Lookup(files, dirs[i], target) == Lookup(other, dirs[j], target)
      ensures Permitted(files, client, target) <==> Permitted(other, client, target)
    {
      assert forall k :: FirstOpenable(files, target, k) ==> k == i;
      assert forall k :: FirstOpenable(other, target, k) ==> k == j;
    }
  }

  predicate HasConnectionList(json: Json) {
    json.Object? && INCOMING_CONNS_KEY in json.fields && json.fields[INCOMING_CONNS_KEY].Array?
  }

  function ConnectionList(json: Json): seq<Json>
    requires HasConnectionList(json)
  {
    json.fields[INCOMING_CONNS_KEY].items
  }

  predicate HasExec(json: Json) {
    json.Object? && ALLOWED_EXECS_KEY in json.fields && json.fields[ALLOWED_EXECS_KEY].Text?
  }

  function ExecOf(json: Json): string
    requires HasExec(json)
  {
    json.fields[ALLOWED_EXECS_KEY].value
  }

  /** The service file names the executables of the service by a glob pattern that `exec` matches. */
  ghost predicate ServiceFileRuns(file: File, exec: string, globs: Globs) {
    file.Parsed? && HasExec(file.json) && ExecOf(file.json) in globs && exec in globs[ExecOf(file.json)]
  }

  /** A name the matcher does not complain about. */
  predicate GoodName(name: string) {
    '*' !in name && "" !in Split(name)
  }

  ghost predicate ValidEntry(entry: Json) {
    entry.Text? && AllGood(Split(entry.value))
  }

  ghost predicate ValidEntries(entries: seq<Json>) {
    forall i :: 0 <= i < |entries| ==> ValidEntry(entries[i])
  }

  ghost predicate PatternsOf(entries: seq<Json>, patterns: seq<NamePattern>) {
    && |patterns| == |entries|
    && forall i :: 0 <= i < |entries| ==> entries[i].Text? && ParseOutcome(entries[i].value, Ok(patterns[i]))
  }

  /** One more entry of a list, parsed. */
  lemma PatternsSnoc(entries: seq<Json>, i: nat, patterns: seq<NamePattern>, p: NamePattern)
    requires i < |entries| && ValidEntries(entries[..i]) && PatternsOf(entries[..i], patterns)
    requires ValidEntry(entries[i]) && ParseOutcome(entries[i].value, Ok(p))
    ensures ValidEntries(entries[..i + 1]) && PatternsOf(entries[..i + 1], patterns + [p])
  {
    forall j | 0 <= j < i + 1
      ensures ValidEntry(entries[..i + 1][j])
      ensures entries[..i + 1][j].Text? && ParseOutcome(entries[..i + 1][j].value, Ok((patterns + [p])[j]))
    {
      if j < i {
        assert entries[..i + 1][j] == entries[..i][j];
      }
    }
  }

  ghost predicate GoodText(e: Json) {
    e.Text? && forall x :: x in Split(e.value) ==> x != "" && ('*' in x ==> x == "*" || x == "**")
  }

  /** A list in its texts: every entry a text with good sections, the name well formed, and one that matches it. */
  ghost predicate TextsAdmit(entries: seq<Json>, client: string) {
    && (forall e :: e in entries ==> GoodText(e))
    && '*' !in client && "" !in Split(client)
    && exists e :: e in entries && e.Text? && TextMatches(e.value, Split(client))
  }

  lemma ListInText(entries: seq<Json>, client: string)
    ensures ListAdmits(entries, client) <==> TextsAdmit(entries, client)
  {
    EntriesInText(entries);
    if ValidEntries(entries) {
      forall e | e in entries ensures EntryAdmits(e, client) <==> TextMatches(e.value, Split(client)) {
        EntryIsGood(e);
        EntryInText(e, client);
      }
    }
  }

  lemma EntryIsGood(e: Json)
    ensures ValidEntry(e) <==> GoodText(e)
  {
    if e.Text? {
      var sections := Split(e.value);
      if AllGood(sections) {
        forall x | x in sections ensures x != "" && ('*' in x ==> x == "*" || x == "**") {
          var i :| 0 <= i < |sections| && sections[i] == x;
          assert GoodSection(sections[i]);
        }
      } else {
        var i :| 0 <= i < |sections| && !GoodSection(sections[i]);
        assert sections[i] in sections;
      }
    }
  }

  lemma EntriesInText(entries: seq<Json>)
    ensures ValidEntries(entries) <==> forall e :: e in entries ==> GoodText(e)
  {
    forall e: Json ensures ValidEntry(e) <==> GoodText(e) {
      EntryIsGood(e);
    }
    if ValidEntries(entries) {
      forall e | e in entries ensures GoodText(e) {
        var i :| 0 <= i < |entries| && entries[i] == e;
        assert ValidEntry(entries[i]);
      }
    } else {
      var i :| 0 <= i < |entries| && !ValidEntry(entries[i]);
      assert entries[i] in entries && !GoodText(entries[i]);
    }
  }

  lemma EntryInText(e: Json, client: string)
    requires ValidEntry(e)
    ensures EntryAdmits(e, client) <==> TextMatches(e.value, Split(client))
  {
    var p := ParsedEntry(e.value);
    TextMeaning(e.value, p, Split(client));
    if q :| ParseOutcome(e.value, Ok(q)) && Matches(q, Split(client)) {
      ParseOutcomeUnique(e.value, Ok(p), Ok(q));
    }
  }

  /** A text with good sections is the text of a pattern. */
  lemma ParsedEntry(s: string) returns (p: NamePattern)
    requires AllGood(Split(s))
    ensures ParseOutcome(s, Ok(p))
  {
    var sections := Split(s);
    JoinSplit(s);
    p := [];
    while |p| < |sections|
      invariant ParsedPrefix(sections, p)
      decreases |sections| - |p|
    {
      SectionOutcome(sections[|p|]);
      ParsedOneMore(sections, p, ParseSection(sections[|p|]).value);
      p := p + [ParseSection(sections[|p|]).value];
    }
    ParsedAll(s, p);
  }

  ghost predicate EntryAdmits(entry: Json, client: string) {
    entry.Text? && exists p :: ParseOutcome(entry.value, Ok(p)) && Matches(p, Split(client))
  }

  /** The decision over one list of entries. */
  ghost predicate ListAdmits(entries: seq<Json>, client: string) {
    && ValidEntries(entries)
    && GoodName(client)
    && exists e :: e in entries && EntryAdmits(e, client)
  }

  ghost predicate ServiceFileAdmits(file: File, client: string) {
    file.Parsed? && HasConnectionList(file.json) && ListAdmits(ConnectionList(file.json), client)
  }

  /** The loop over the patterns: the first match decides, and so does a name the matcher complains about. */
  method SomePatternMatches(patterns: seq<NamePattern>, client: string) returns (r: bool)
    ensures r <==> GoodName(client) && exists i :: 0 <= i < |patterns| && Matches(patterns[i], Split(client))
  {
    for i := 0 to |patterns|
      invariant i > 0 ==> GoodName(client)
      invariant forall j :: 0 <= j < i ==> !Matches(patterns[j], Split(client))
    {
      var matches := MatchName(patterns[i], client);
      if matches.Err? {
        return false;
      }
      if matches.value {
        return true;
      }
    }
    return false;
  }

  /** With the entries parsed, admission is a match by one of the patterns. */
  lemma AdmittedByPattern(entries: seq<Json>, patterns: seq<NamePattern>, client: string)
    requires PatternsOf(entries, patterns) && ValidEntries(entries)
    ensures ListAdmits(entries, client) <==>
      GoodName(client) && exists i :: 0 <= i < |patterns| && Matches(patterns[i], Split(client))
  {
    forall i | 0 <= i < |entries|
      ensures EntryAdmits(entries[i], client) <==> Matches(patterns[i], Split(client))
    {
      if p :| ParseOutcome(entries[i].value, Ok(p)) && Matches(p, Split(client)) {
        ParseOutcomeUnique(entries[i].value, Ok(p), Ok(patterns[i]));
      }
    }
    if i :| 0 <= i < |patterns| && Matches(patterns[i], Split(client)) {
      assert entries[i] in entries && EntryAdmits(entries[i], client);
    }
  }

  /** The order and the repetition of the entries do not matter. */
  lemma ListOrderIrrelevant(a: seq<Json>, b: seq<Json>, client: string)
    requires forall e :: e in a <==> e in b
    ensures ListAdmits(a, client) <==> ListAdmits(b, client)
  {
    forall xs: seq<Json> | xs == a || xs == b
      ensures ValidEntries(xs) <==> forall e :: e in xs ==> ValidEntry(e)
    {
      if !ValidEntries(xs) {
        var i :| 0 <= i < |xs| && !ValidEntry(xs[i]);
        assert xs[i] in xs;
      }
    }
  }

  /** Adding valid entries never takes an admission away; one invalid entry takes all of them away. */
  lemma ListGrowth(a: seq<Json>, more: seq<Json>, client: string)
    ensures ListAdmits(a, client) && ValidEntries(more) ==> ListAdmits(a + more, client)
    ensures !ValidEntries(more) ==> !ListAdmits(a + more, client)
  {
    if !ValidEntries(more) {
      var i :| 0 <= i < |more| && !ValidEntry(more[i]);
      assert (a + more)[|a| + i] == more[i];
    }
    if ListAdmits(a, client) {
      var e :| e in a && EntryAdmits(e, client);
      assert e in a + more;
    }
  }
}
