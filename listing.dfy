/** printResource (main.go:131-183): for every resource type matched by the
    pattern, walk the clients, collect their resources and the attribute
    support map, and export the collected resources. */
module Listing {
  import opened Wrappers
  import opened Inventory
  import opened CsvExport

  /** A message written to the error stream. */
  datatype Diag =
    | InvalidPattern(pattern: string)
    | NoTypeFound(pattern: string)
    | AccountIdFailed(rtype: string, err: string)
    | ListFailed(rtype: string, err: string)
    | AttrCheckFailed(err: string)

  /** The state of the per-client loop for one resource type: the collected
      `resources`, the support map `hasAttrs`, the clients whose lists were
      hydrated, the error messages so far, and whether the run panicked. */
  datatype Acc = Acc(resources: seq<Resource>, hasAttrs: map<string, bool>, hydrated: seq<ClientKey>, diags: seq<Diag>, aborted: bool)

  /** Before the first client: no resources and a nil (empty) support map. */
  const Start: Acc := Acc([], map[], [], [], false)

  /** One iteration of the per-client loop. */
  function Visit(o: Oracles, attributes: seq<string>, rType: string, acc: Acc, key: ClientKey): Acc
  {
    match o.setAccountID(key, rType)
    case Some(e) => acc.(diags := acc.diags + [AccountIdFailed(rType, e)], aborted := true)
    case None =>
      match o.listResourcesByType(key, rType)
      case Err(e) => acc.(diags := acc.diags + [ListFailed(rType, e)])
      case Ok(res) =>
        var check := o.hasAttributes(attributes, rType, key);
        if check.err.Some? then
          acc.(hasAttrs := check.support, diags := acc.diags + [AttrCheckFailed(check.err.value)])
        else if |check.support| > 0 then
          acc.(hasAttrs := check.support, resources := acc.resources + o.getStates(res), hydrated := acc.hydrated + [key])
        else
          acc.(hasAttrs := check.support, resources := acc.resources + res)
  }

  /** The loop state after visiting `clients` in order; a panic ends the walk. */
  function Collect(o: Oracles, attributes: seq<string>, rType: string, clients: seq<ClientKey>): Acc
    decreases |clients|
  {
    if clients == [] then Start
    else
      var acc := Collect(o, attributes, rType, clients[..|clients| - 1]);
      if acc.aborted then acc else Visit(o, attributes, rType, acc, clients[|clients| - 1])
  }

  lemma {:induction false} AbortSticks(o: Oracles, attributes: seq<string>, rType: string, clients: seq<ClientKey>, n: nat)
    requires n <= |clients|
    requires Collect(o, attributes, rType, clients[..n]).aborted
    ensures Collect(o, attributes, rType, clients) == Collect(o, attributes, rType, clients[..n])
    decreases |clients| - n
  {
    if n == |clients| {
      assert clients[..n] == clients;
    } else {
      var m := |clients| - 1;
      assert clients[..m][..n] == clients[..n];
      AbortSticks(o, attributes, rType, clients[..m], n);
    }
  }

  /** The inner loop of printResource (main.go:143-176) for one resource type. */
  method CollectType(o: Oracles, attributes: seq<string>, rType: string, clients: seq<ClientKey>) returns (acc: Acc)
    ensures acc == Collect(o, attributes, rType, clients)
  {
    var resources: seq<Resource> := [];
    var hasAttrs: map<string, bool> := map[];
    var hydrated: seq<ClientKey> := [];
    var diags: seq<Diag> := [];
    var i := 0;
    while i < |clients|
      invariant 0 <= i <= |clients|
      invariant Collect(o, attributes, rType, clients[..i]) == Acc(resources, hasAttrs, hydrated, diags, false)
    {
      var key := clients[i];
      assert clients[..i + 1][..i] == clients[..i];
      var accountErr := o.setAccountID(key, rType);
      if accountErr.Some? {
        diags := diags + [AccountIdFailed(rType, accountErr.value)];
        acc := Acc(resources, hasAttrs, hydrated, diags, true);
        AbortSticks(o, attributes, rType, clients, i + 1);
        return;
      }
      var listed := o.listResourcesByType(key, rType);
      if listed.Err? {
        diags := diags + [ListFailed(rType, listed.error)];
      } else {
        var res := listed.value;
        var check := o.hasAttributes(attributes, rType, key);
        hasAttrs := check.support;
        if check.err.Some? {
          diags := diags + [AttrCheckFailed(check.err.value)];
        } else {
          if |hasAttrs| > 0 {
            res := o.getStates(res);
            hydrated := hydrated + [key];
          }
          resources := resources + res;
        }
      }
      i := i + 1;
    }
    assert clients[..|clients|] == clients;
    acc := Acc(resources, hasAttrs, hydrated, diags, false);
  }

  /** A client that gets past the listing reaches the support check. */
  predicate Reaches(o: Oracles, rType: string, key: ClientKey)
  {
    o.listResourcesByType(key, rType).Ok?
  }

  /** A client whose listing and support check both succeed. */
  predicate Survives(o: Oracles, attributes: seq<string>, rType: string, key: ClientKey)
  {
    Reaches(o, rType, key) && o.hasAttributes(attributes, rType, key).err.None?
  }

  /** A client whose list gets hydrated. */
  predicate Hydrates(o: Oracles, attributes: seq<string>, rType: string, key: ClientKey)
  {
    Survives(o, attributes, rType, key) && |o.hasAttributes(attributes, rType, key).support| > 0
  }

  /** What one client adds on its own: nothing unless it survives, its list
      hydrated when its support map has a key, and its list as listed otherwise. */
  function Contribution(o: Oracles, attributes: seq<string>, rType: string, key: ClientKey): seq<Resource>
  {
    if !Survives(o, attributes, rType, key) then []
    else
      var res := o.listResourcesByType(key, rType).value;
      if Hydrates(o, attributes, rType, key) then o.getStates(res) else res
  }

  /** The contributions of `clients` concatenated in client order. */
  function Concat(o: Oracles, attributes: seq<string>, rType: string, clients: seq<ClientKey>): seq<Resource>
    decreases |clients|
  {
    if clients == [] then []
    else Contribution(o, attributes, rType, clients[0]) + Concat(o, attributes, rType, clients[1..])
  }

  lemma {:induction false} ConcatAppend(o: Oracles, attributes: seq<string>, rType: string, clients: seq<ClientKey>, key: ClientKey)
    ensures Concat(o, attributes, rType, clients + [key]) ==
      Concat(o, attributes, rType, clients) + Contribution(o, attributes, rType, key)
    decreases |clients|
  {
    if clients == [] {
      assert clients + [key] == [key];
      assert [key][1..] == [];
    } else {
      assert (clients + [key])[1..] == clients[1..] + [key];
      ConcatAppend(o, attributes, rType, clients[1..], key);
    }
  }

  /** The walk panics exactly when some client fails to resolve its account ID. */
  lemma {:induction false} AbortIffAccountFails(o: Oracles, attributes: seq<string>, rType: string, clients: seq<ClientKey>)
    ensures Collect(o, attributes, rType, clients).aborted <==>
      exists j :: 0 <= j < |clients| && o.setAccountID(clients[j], rType).Some?
    decreases |clients|
  {
    if clients != [] {
      var n := |clients| - 1;
      var prefix := clients[..n];
      AbortIffAccountFails(o, attributes, rType, prefix);
      if Collect(o, attributes, rType, prefix).aborted {
        var j :| 0 <= j < |prefix| && o.setAccountID(prefix[j], rType).Some?;
        assert clients[j] == prefix[j];
      } else if o.setAccountID(clients[n], rType).None? {
        forall j | 0 <= j < |clients|
          ensures o.setAccountID(clients[j], rType).None?
        {
          if j < n {
            assert clients[j] == prefix[j];
          }
        }
      }
    }
  }

  /** Without a panic, the collected resources are the contributions of the
      clients concatenated in client order: a client whose listing or support
      check fails adds nothing. */
  lemma {:induction false} ResourcesAreConcatenation(o: Oracles, attributes: seq<string>, rType: string, clients: seq<ClientKey>)
    ensures !Collect(o, attributes, rType, clients).aborted ==>
      Collect(o, attributes, rType, clients).resources == Concat(o, attributes, rType, clients)
    decreases |clients|
  {
    if clients != [] && !Collect(o, attributes, rType, clients).aborted {
      var n := |clients| - 1;
      var prefix := clients[..n];
      ResourcesAreConcatenation(o, attributes, rType, prefix);
      ConcatAppend(o, attributes, rType, prefix, clients[n]);
      assert prefix + [clients[n]] == clients;
    }
  }

  /** Without a panic, the support map handed to the export is the one the
      last client reaching the support check was given, failed check or not;
      it stays nil (empty) when no client reaches the check. */
  lemma {:induction false} SupportIsLastWriter(o: Oracles, attributes: seq<string>, rType: string, clients: seq<ClientKey>)
    ensures (!Collect(o, attributes, rType, clients).aborted &&
             forall j :: 0 <= j < |clients| ==> !Reaches(o, rType, clients[j])) ==>
      Collect(o, attributes, rType, clients).hasAttrs == map[]
    ensures !Collect(o, attributes, rType, clients).aborted ==>
      forall j :: (0 <= j < |clients| && Reaches(o, rType, clients[j]) &&
                   forall k :: j < k < |clients| ==> !Reaches(o, rType, clients[k])) ==>
        Collect(o, attributes, rType, clients).hasAttrs == o.hasAttributes(attributes, rType, clients[j]).support
    decreases |clients|
  {
    if clients != [] && !Collect(o, attributes, rType, clients).aborted {
      var n := |clients| - 1;
      var prefix := clients[..n];
      SupportIsLastWriter(o, attributes, rType, prefix);
      assert forall j :: 0 <= j < n ==> prefix[j] == clients[j];
      if !Reaches(o, rType, clients[n]) {
        forall j | 0 <= j < |clients| && Reaches(o, rType, clients[j]) &&
          (forall k :: j < k < |clients| ==> !Reaches(o, rType, clients[k]))
          ensures Collect(o, attributes, rType, clients).hasAttrs == o.hasAttributes(attributes, rType, clients[j]).support
        {
          assert j < n;
          assert forall k :: j < k < |prefix| ==> !Reaches(o, rType, prefix[k]);
        }
      }
    }
  }

  /** Without a panic, GetStates runs on a client's list exactly when that
      client survives with a non-empty support map. */
  lemma {:induction false} HydratedExactly(o: Oracles, attributes: seq<string>, rType: string, clients: seq<ClientKey>)
    ensures !Collect(o, attributes, rType, clients).aborted ==>
      forall key :: key in Collect(o, attributes, rType, clients).hydrated <==>
        key in clients && Hydrates(o, attributes, rType, key)
    decreases |clients|
  {
    if clients != [] && !Collect(o, attributes, rType, clients).aborted {
      var n := |clients| - 1;
      var prefix := clients[..n];
      HydratedExactly(o, attributes, rType, prefix);
      assert clients == prefix + [clients[n]];
    }
  }

  /** The message one client writes when its account ID resolves: the failed
      listing, or the failed support check, or nothing. */
  function Report(o: Oracles, attributes: seq<string>, rType: string, key: ClientKey): seq<Diag>
  {
    match o.listResourcesByType(key, rType)
    case Err(e) => [ListFailed(rType, e)]
    case Ok(_) =>
      var check := o.hasAttributes(attributes, rType, key);
      if check.err.Some? then [AttrCheckFailed(check.err.value)] else []
  }

  /** The reports of `clients` concatenated in client order. */
  function Reports(o: Oracles, attributes: seq<string>, rType: string, clients: seq<ClientKey>): seq<Diag>
    decreases |clients|
  {
    if clients == [] then []
    else Report(o, attributes, rType, clients[0]) + Reports(o, attributes, rType, clients[1..])
  }

  lemma {:induction false} ReportsAppend(o: Oracles, attributes: seq<string>, rType: string, clients: seq<ClientKey>, key: ClientKey)
    ensures Reports(o, attributes, rType, clients + [key]) ==
      Reports(o, attributes, rType, clients) + Report(o, attributes, rType, key)
    decreases |clients|
  {
    if clients == [] {
      assert clients + [key] == [key];
      assert [key][1..] == [];
    } else {
      assert (clients + [key])[1..] == clients[1..] + [key];
      ReportsAppend(o, attributes, rType, clients[1..], key);
    }
  }

  /** Without a panic, every client's failure is reported and the walk goes on:
      the messages are the clients' reports in client order. */
  lemma {:induction false} DiagsAreReports(o: Oracles, attributes: seq<string>, rType: string, clients: seq<ClientKey>)
    ensures !Collect(o, attributes, rType, clients).aborted ==>
      Collect(o, attributes, rType, clients).diags == Reports(o, attributes, rType, clients)
    decreases |clients|
  {
    if clients != [] && !Collect(o, attributes, rType, clients).aborted {
      var n := |clients| - 1;
      var prefix := clients[..n];
      DiagsAreReports(o, attributes, rType, prefix);
      ReportsAppend(o, attributes, rType, prefix, clients[n]);
      assert prefix + [clients[n]] == clients;
    }
  }

  /** The walk stops at client j: its account ID fails, every earlier one
      resolves, and `diags` is the earlier clients' reports followed by that failure. */
  predicate StopsAt(o: Oracles, attributes: seq<string>, rType: string, clients: seq<ClientKey>, diags: seq<Diag>, j: int)
  {
    0 <= j < |clients| && o.setAccountID(clients[j], rType).Some? &&
    (forall k :: 0 <= k < j ==> o.setAccountID(clients[k], rType).None?) &&
    diags == Reports(o, attributes, rType, clients[..j]) + [AccountIdFailed(rType, o.setAccountID(clients[j], rType).value)]
  }

  /** A stop inside a prefix is a stop of the whole client list. */
  lemma StopsAtExtends(o: Oracles, attributes: seq<string>, rType: string, clients: seq<ClientKey>, diags: seq<Diag>, n: nat, j: int)
    requires n <= |clients|
    requires StopsAt(o, attributes, rType, clients[..n], diags, j)
    ensures StopsAt(o, attributes, rType, clients, diags, j)
  {
    assert clients[..n][..j] == clients[..j];
    assert forall k :: 0 <= k <= j ==> clients[..n][k] == clients[k];
  }

  /** A panicking walk stops at the first client whose account ID fails: the
      messages are the earlier clients' reports followed by that failure. */
  lemma {:induction false} AbortReportsAccountFailure(o: Oracles, attributes: seq<string>, rType: string, clients: seq<ClientKey>)
    ensures Collect(o, attributes, rType, clients).aborted ==>
      exists j :: StopsAt(o, attributes, rType, clients, Collect(o, attributes, rType, clients).diags, j)
    decreases |clients|
  {
    if clients != [] && Collect(o, attributes, rType, clients).aborted {
      var n := |clients| - 1;
      var prefix := clients[..n];
      var diags := Collect(o, attributes, rType, clients).diags;
      AbortReportsAccountFailure(o, attributes, rType, prefix);
      if Collect(o, attributes, rType, prefix).aborted {
        var j :| StopsAt(o, attributes, rType, prefix, diags, j);
        StopsAtExtends(o, attributes, rType, clients, diags, n, j);
      } else {
        DiagsAreReports(o, attributes, rType, prefix);
        AbortIffAccountFails(o, attributes, rType, prefix);
        assert forall k :: 0 <= k < n ==> prefix[k] == clients[k];
        assert StopsAt(o, attributes, rType, clients, diags, n);
      }
    }
  }

  /** One write of a CSV file: its path and its rows. Every write of a run goes
      to the same pattern-named path and os.Create truncates the file, so only
      the last write of a run remains on disk. */
  datatype Export = Export(path: string, table: seq<seq<string>>)

  /** What a run of printResource produces: the file writes in order, error messages, debug log, and whether it panicked. */
  datatype Run = Run(exports: seq<Export>, diags: seq<Diag>, debug: seq<DebugEntry>, panicked: bool)

  /** The file printResourcesCsv writes; it is named after the pattern, not the matched type. */
  function CsvPath(pattern: string): string
  {
    "aws-resources/" + pattern + ".csv"
  }

  function ExportOf(pattern: string, attributes: seq<string>, getAttribute: Extractor, acc: Acc): Export
  {
    Export(CsvPath(pattern), [FixedColumns + attributes] + Rows(acc.resources, acc.hasAttrs, attributes, getAttribute))
  }

  /** The outer loop over the matched types, in order; a panic ends the run. */
  function RunTypes(o: Oracles, pattern: string, attributes: seq<string>, clients: seq<ClientKey>, types: seq<string>): Run
    decreases |types|
  {
    if types == [] then Run([], [], [], false)
    else
      var run := RunTypes(o, pattern, attributes, clients, types[..|types| - 1]);
      if run.panicked then run
      else
        var acc := Collect(o, attributes, types[|types| - 1], clients);
        if acc.aborted then run.(diags := run.diags + acc.diags, panicked := true)
        else if |acc.resources| == 0 then run.(diags := run.diags + acc.diags)
        else
          run.(exports := run.exports + [ExportOf(pattern, attributes, o.getAttribute, acc)],
               diags := run.diags + acc.diags,
               debug := run.debug + DebugLog(acc.resources, acc.hasAttrs, attributes, o.getAttribute))
  }

  /** The whole of printResource. */
  function PrintResourceSpec(o: Oracles, pattern: string, attributes: seq<string>, clients: seq<ClientKey>): Run
  {
    match o.matchSupportedTypes(pattern)
    case Err(_) => Run([], [InvalidPattern(pattern)], [], true)
    case Ok(types) =>
      var run := RunTypes(o, pattern, attributes, clients, types);
      run.(diags := (if types == [] then [NoTypeFound(pattern)] else []) + run.diags)
  }

  lemma {:induction false} PanicSticks(o: Oracles, pattern: string, attributes: seq<string>, clients: seq<ClientKey>, types: seq<string>, n: nat)
    requires n <= |types|
    requires RunTypes(o, pattern, attributes, clients, types[..n]).panicked
    ensures RunTypes(o, pattern, attributes, clients, types) == RunTypes(o, pattern, attributes, clients, types[..n])
    decreases |types| - n
  {
    if n == |types| {
      assert types[..n] == types;
    } else {
      var m := |types| - 1;
      assert types[..m][..n] == types[..n];
      PanicSticks(o, pattern, attributes, clients, types[..m], n);
    }
  }

  /** printResource: match the pattern, then collect and export each matched type. */
  method PrintResource(pattern: string, attributes: seq<string>, clients: seq<ClientKey>, o: Oracles) returns (run: Run)
    ensures run == PrintResourceSpec(o, pattern, attributes, clients)
  {
    var matched := o.matchSupportedTypes(pattern);
    if matched.Err? {
      run := Run([], [InvalidPattern(pattern)], [], true);
      return;
    }
    var types := matched.value;
    var lead: seq<Diag> := [];
    if |types| == 0 {
      lead := [NoTypeFound(pattern)];
    }
    var exports: seq<Export> := [];
    var diags: seq<Diag> := [];
    var debug: seq<DebugEntry> := [];
    for t := 0 to |types|
      invariant RunTypes(o, pattern, attributes, clients, types[..t]) == Run(exports, diags, debug, false)
    {
      var rType := types[t];
      assert types[..t + 1][..t] == types[..t];
      var acc := CollectType(o, attributes, rType, clients);
      diags := diags + acc.diags;
      if acc.aborted {
        PanicSticks(o, pattern, attributes, clients, types, t + 1);
        run := Run(exports, lead + diags, debug, true);
        return;
      }
      if |acc.resources| > 0 {
        var table, failed := PrintResourcesCsv(acc.resources, acc.hasAttrs, attributes, o.getAttribute);
        exports := exports + [Export(CsvPath(pattern), table)];
        debug := debug + failed;
      }
    }
    assert types[..|types|] == types;
    run := Run(exports, lead + diags, debug, false);
  }

  /** The types whose walk collected at least one resource, in order. */
  function ExportedTypes(o: Oracles, attributes: seq<string>, clients: seq<ClientKey>, types: seq<string>): seq<string>
    decreases |types|
  {
    if types == [] then []
    else
      var n := |types| - 1;
      ExportedTypes(o, attributes, clients, types[..n]) +
        (if |Collect(o, attributes, types[n], clients).resources| > 0 then [types[n]] else [])
  }

  /** The run panics exactly when some client fails its account-ID lookup for some matched type. */
  lemma {:induction false} PanicIffAccountFails(o: Oracles, pattern: string, attributes: seq<string>, clients: seq<ClientKey>, types: seq<string>)
    ensures RunTypes(o, pattern, attributes, clients, types).panicked <==>
      exists i, j :: 0 <= i < |types| && 0 <= j < |clients| && o.setAccountID(clients[j], types[i]).Some?
    decreases |types|
  {
    if types != [] {
      var n := |types| - 1;
      var prefix := types[..n];
      PanicIffAccountFails(o, pattern, attributes, clients, prefix);
      AbortIffAccountFails(o, attributes, types[n], clients);
      if RunTypes(o, pattern, attributes, clients, prefix).panicked {
        var i, j :| 0 <= i < |prefix| && 0 <= j < |clients| && o.setAccountID(clients[j], prefix[i]).Some?;
        assert types[i] == prefix[i];
      } else if !Collect(o, attributes, types[n], clients).aborted {
        forall i, j | 0 <= i < |types| && 0 <= j < |clients|
          ensures o.setAccountID(clients[j], types[i]).None?
        {
          if i < n {
            assert types[i] == prefix[i];
          }
        }
      }
    }
  }

  /** Without a panic, there is one export per type that collected resources,
      in type order, each holding the header and that type's rows; every
      export goes to the one path named after the pattern, and has at least
      one data row. */
  lemma {:induction false} ExportsFollowTypes(o: Oracles, pattern: string, attributes: seq<string>, clients: seq<ClientKey>, types: seq<string>)
    ensures forall e :: e in RunTypes(o, pattern, attributes, clients, types).exports ==>
      e.path == CsvPath(pattern) && |e.table| >= 2
    ensures !RunTypes(o, pattern, attributes, clients, types).panicked ==>
      |RunTypes(o, pattern, attributes, clients, types).exports| == |ExportedTypes(o, attributes, clients, types)| &&
      forall i :: 0 <= i < |ExportedTypes(o, attributes, clients, types)| ==>
        RunTypes(o, pattern, attributes, clients, types).exports[i] ==
        ExportOf(pattern, attributes, o.getAttribute, Collect(o, attributes, ExportedTypes(o, attributes, clients, types)[i], clients))
    decreases |types|
  {
    if types != [] {
      var n := |types| - 1;
      var prefix := types[..n];
      ExportsFollowTypes(o, pattern, attributes, clients, prefix);
      var acc := Collect(o, attributes, types[n], clients);
      RowsAt(acc.resources, acc.hasAttrs, attributes, o.getAttribute);
    }
  }

  /** printResource writes nothing and reports "no resource type found" when
      the pattern matches no type, and writes nothing after an invalid pattern. */
  lemma NoMatchNoExport(o: Oracles, pattern: string, attributes: seq<string>, clients: seq<ClientKey>)
    ensures o.matchSupportedTypes(pattern).Err? ==>
      PrintResourceSpec(o, pattern, attributes, clients) == Run([], [InvalidPattern(pattern)], [], true)
    ensures o.matchSupportedTypes(pattern) == Ok([]) ==>
      PrintResourceSpec(o, pattern, attributes, clients) == Run([], [NoTypeFound(pattern)], [], false)
  {
  }

  /** Two clients each list one instance; dev's provider supports all three
      requested attributes, prod's only "tags". prod is walked last, so its map
      is the one kept: both instances, dev's included, are hydrated and
      collected, and every row built with the kept map reads "N/A" for
      "private_ip" and "public_ip". */
  lemma SharedSupportMapScenario(o: Oracles, dev: ClientKey, prod: ClientKey, devInstance: Resource, prodInstance: Resource)
    requires o.setAccountID(dev, "aws_instance").None? && o.setAccountID(prod, "aws_instance").None?
    requires o.listResourcesByType(dev, "aws_instance") == Ok([devInstance])
    requires o.listResourcesByType(prod, "aws_instance") == Ok([prodInstance])
    requires o.hasAttributes(["private_ip", "public_ip", "tags"], "aws_instance", dev) ==
      AttrCheck(map["private_ip" := true, "public_ip" := true, "tags" := true], None)
    requires o.hasAttributes(["private_ip", "public_ip", "tags"], "aws_instance", prod) == AttrCheck(map["tags" := true], None)
    ensures !Collect(o, ["private_ip", "public_ip", "tags"], "aws_instance", [dev, prod]).aborted
    ensures Collect(o, ["private_ip", "public_ip", "tags"], "aws_instance", [dev, prod]).resources ==
      o.getStates([devInstance]) + o.getStates([prodInstance])
    ensures Collect(o, ["private_ip", "public_ip", "tags"], "aws_instance", [dev, prod]).hasAttrs == map["tags" := true]
    ensures forall r :: r in Collect(o, ["private_ip", "public_ip", "tags"], "aws_instance", [dev, prod]).resources ==>
      RowOf(r, map["tags" := true], ["private_ip", "public_ip", "tags"], o.getAttribute)[3] == NotAvailable &&
      RowOf(r, map["tags" := true], ["private_ip", "public_ip", "tags"], o.getAttribute)[4] == NotAvailable
  {
    var attributes := ["private_ip", "public_ip", "tags"];
    assert [dev, prod][..1] == [dev];
    assert [dev][..0] == [];
    assert |map["private_ip" := true, "public_ip" := true, "tags" := true]| > 0 by {
      assert "tags" in map["private_ip" := true, "public_ip" := true, "tags" := true];
    }
    assert |map["tags" := true]| > 0 by {
      assert "tags" in map["tags" := true];
    }
    var first := Collect(o, attributes, "aws_instance", [dev]);
    var none: seq<ClientKey> := [];
    assert [dev][..|[dev]| - 1] == none;
    assert Collect(o, attributes, "aws_instance", none) == Start;
    assert first == Visit(o, attributes, "aws_instance", Start, dev);
    assert first.resources == o.getStates([devInstance]) && !first.aborted;
    assert Collect(o, attributes, "aws_instance", [dev, prod]) == Visit(o, attributes, "aws_instance", first, prod);
    forall r | r in Collect(o, attributes, "aws_instance", [dev, prod]).resources
      ensures RowOf(r, map["tags" := true], attributes, o.getAttribute)[3] == NotAvailable
      ensures RowOf(r, map["tags" := true], attributes, o.getAttribute)[4] == NotAvailable
    {
      RowShape(r, map["tags" := true], attributes, o.getAttribute);
      assert attributes[0] !in map["tags" := true] && attributes[1] !in map["tags" := true];
    }
  }

  /** A pattern matching one type whose walk collects resources without a
      panic writes exactly one file, holding that type's table. */
  lemma SingleTypeExport(o: Oracles, pattern: string, attributes: seq<string>, clients: seq<ClientKey>, rType: string)
    requires o.matchSupportedTypes(pattern) == Ok([rType])
    requires !Collect(o, attributes, rType, clients).aborted
    requires |Collect(o, attributes, rType, clients).resources| > 0
    ensures !PrintResourceSpec(o, pattern, attributes, clients).panicked
    ensures PrintResourceSpec(o, pattern, attributes, clients).exports ==
      [ExportOf(pattern, attributes, o.getAttribute, Collect(o, attributes, rType, clients))]
    ensures |ExportOf(pattern, attributes, o.getAttribute, Collect(o, attributes, rType, clients)).table| ==
      1 + |Collect(o, attributes, rType, clients).resources|
  {
    RowsAt(Collect(o, attributes, rType, clients).resources, Collect(o, attributes, rType, clients).hasAttrs, attributes, o.getAttribute);
    var types := [rType];
    var noTypes: seq<string> := [];
    assert types[..|types| - 1] == noTypes;
    assert types[|types| - 1] == rType;
    assert RunTypes(o, pattern, attributes, clients, noTypes) == Run([], [], [], false);
    var acc := Collect(o, attributes, rType, clients);
    assert RunTypes(o, pattern, attributes, clients, types).exports == [ExportOf(pattern, attributes, o.getAttribute, acc)];
  }

  /** `SingleTypeExport` with the collected resources and support map named. */
  lemma CollectedExport(o: Oracles, pattern: string, attributes: seq<string>, clients: seq<ClientKey>, rType: string,
                        resources: seq<Resource>, hasAttrs: map<string, bool>)
    requires o.matchSupportedTypes(pattern) == Ok([rType])
    requires !Collect(o, attributes, rType, clients).aborted
    requires Collect(o, attributes, rType, clients).resources == resources && |resources| > 0
    requires Collect(o, attributes, rType, clients).hasAttrs == hasAttrs
    ensures !PrintResourceSpec(o, pattern, attributes, clients).panicked
    ensures PrintResourceSpec(o, pattern, attributes, clients).exports ==
      [Export(CsvPath(pattern), [FixedColumns + attributes] + Rows(resources, hasAttrs, attributes, o.getAttribute))]
    ensures |PrintResourceSpec(o, pattern, attributes, clients).exports[0].table| == 1 + |resources|
  {
    SingleTypeExport(o, pattern, attributes, clients, rType);
  }

  /** The same two clients, listed through printResource for the pattern
      "aws_instance" that matches only itself, each hydrated list holding one
      instance: one file, aws-resources/aws_instance.csv, is written, holding
      the header and two data rows built with prod's support map. */
  lemma SharedSupportMapExport(o: Oracles, dev: ClientKey, prod: ClientKey, devInstance: Resource, prodInstance: Resource)
    requires o.matchSupportedTypes("aws_instance") == Ok(["aws_instance"])
    requires o.setAccountID(dev, "aws_instance").None? && o.setAccountID(prod, "aws_instance").None?
    requires o.listResourcesByType(dev, "aws_instance") == Ok([devInstance])
    requires o.listResourcesByType(prod, "aws_instance") == Ok([prodInstance])
    requires o.hasAttributes(["private_ip", "public_ip", "tags"], "aws_instance", dev) ==
      AttrCheck(map["private_ip" := true, "public_ip" := true, "tags" := true], None)
    requires o.hasAttributes(["private_ip", "public_ip", "tags"], "aws_instance", prod) == AttrCheck(map["tags" := true], None)
    requires |o.getStates([devInstance])| == 1 && |o.getStates([prodInstance])| == 1
    ensures !PrintResourceSpec(o, "aws_instance", ["private_ip", "public_ip", "tags"], [dev, prod]).panicked
    ensures PrintResourceSpec(o, "aws_instance", ["private_ip", "public_ip", "tags"], [dev, prod]).exports ==
      [Export("aws-resources/aws_instance.csv",
              [FixedColumns + ["private_ip", "public_ip", "tags"]] +
              Rows(o.getStates([devInstance]) + o.getStates([prodInstance]), map["tags" := true],
                   ["private_ip", "public_ip", "tags"], o.getAttribute))]
    ensures |PrintResourceSpec(o, "aws_instance", ["private_ip", "public_ip", "tags"], [dev, prod]).exports[0].table| == 3
  {
    var attributes := ["private_ip", "public_ip", "tags"];
    var clients := [dev, prod];
    var resources := o.getStates([devInstance]) + o.getStates([prodInstance]);
    var support := map["tags" := true];
    var run := PrintResourceSpec(o, "aws_instance", attributes, clients);
    var expected := Export(CsvPath("aws_instance"), [FixedColumns + attributes] + Rows(resources, support, attributes, o.getAttribute));
    assert !run.panicked && run.exports == [expected] && |run.exports[0].table| == 1 + |resources| by {
      SharedSupportMapScenario(o, dev, prod, devInstance, prodInstance);
      CollectedExport(o, "aws_instance", attributes, clients, "aws_instance", resources, support);
    }
    InstanceCsvPath();
  }

  /** The file the "aws_instance" pattern writes. */
  lemma InstanceCsvPath()
    ensures CsvPath("aws_instance") == "aws-resources/aws_instance.csv"
  {
  }
}
