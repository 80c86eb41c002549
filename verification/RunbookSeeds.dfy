/**
  The seed path of standalone runbooks: steps refer to scripts by id in the database and by name in
  the seed file, so that they find the same scripts in an environment whose ids differ.
 */
module RunbookSeeds {
  import opened Wrappers
  import opened SeedScripts
  import opened Text

  datatype Step = Step(position: int, stepName: string, scriptId: Option<int>, isCritical: bool,
                       retryCount: int, timeoutSeconds: int, alwaysRun: bool)
  datatype StepDoc = StepDoc(position: int, stepName: string, scriptName: Option<string>, isCritical: bool,
                             retryCount: int, timeoutSeconds: int, alwaysRun: bool)

  /** The script_modules table: rows by id, and the id the sequence yields next. */
  datatype Scripts = Scripts(rows: map<int, Script>, next: int) {

    /** Names are unique and no id is ahead of the sequence. */
    predicate Valid() {
      && (forall i, j :: i in rows && j in rows && rows[i].name == rows[j].name ==> i == j)
      && (forall i :: i in rows ==> 0 < i < next)
      && 0 < next
    }

    predicate HasName(name: string) {
      exists i :: i in rows && rows[i].name == name
    }

    function IdOf(name: string): (id: int)
      requires Valid() && HasName(name)
      ensures id in rows && rows[id].name == name
    {
      IdIsUnique(name);
      var id :| id in rows && rows[id].name == name;
      id
    }

    lemma IdIsUnique(name: string)
      requires Valid()
      ensures forall i, j :: i in rows && j in rows && rows[i].name == name && rows[j].name == name ==> i == j
    {
    }

    /** Insert only: a name already present is left alone. */
    function Seed(file: SeedFile): Scripts {
      match Import(file)
      case None => this
      case Some(row) => if HasName(row.name) then this else Scripts(rows[next := row], next + 1)
    }
  }

  function SeedAll(table: Scripts, files: seq<SeedFile>): Scripts
    decreases |files|
  {
    if files == [] then table else SeedAll(table.Seed(files[0]), files[1..])
  }

  method SeedScriptModules(table: Scripts, files: seq<SeedFile>) returns (seeded: Scripts)
    ensures seeded == SeedAll(table, files)
  {
    seeded := table;
    for k := 0 to |files|
      invariant SeedAll(table, files) == SeedAll(seeded, files[k..])
    {
      seeded := seeded.Seed(files[k]);
    }
  }

  /** The row a name finds. */
  function RowNamed(table: Scripts, name: string): Option<Script>
    requires table.Valid()
  {
    if table.HasName(name) then Some(table.rows[table.IdOf(name)]) else None
  }

  /** The first file that is imported under a name. */
  function FirstNamed(files: seq<SeedFile>, name: string): Option<Script> {
    if files == [] then None
    else if Import(files[0]).Some? && Import(files[0]).value.name == name then Import(files[0])
    else FirstNamed(files[1..], name)
  }

  /** What the exporter calls a script without a name. */
  function Unnamed(id: int): string {
    "script-" + if id >= 0 then Printed(id) else "-" + Printed(-id)
  }

  /** The seed files of a table whose rows were listed in the order `ids`. */
  function ExportAll(table: Scripts, ids: seq<int>): seq<SeedFile>
    requires forall i :: i in ids ==> i in table.rows
    decreases |ids|
  {
    if ids == [] then [] else
      var id := ids[0];
      assert id in ids;
      [Export(table.rows[id], Unnamed(id))] + ExportAll(table, ids[1..])
  }

  /** A script without a name is exported to a file named after its id. */
  lemma FileOfNameless(row: Script, id: nat)
    requires row.name == ""
    ensures Export(row, Unnamed(id)).stem == "script-" + Printed(id)
  {
    hide Slugify;
    var name := "script-" + Printed(id);
    PrintedDigits(id);
    assert name[|name| - 1] in Printed(id) && name[0] == 's';
    assert forall c :: c in "script-" ==> 'a' <= c <= 'z' || c == '-';
    assert '-' in "._-";
    SafeNameIsItsSlug(name);
  }

  // ----- steps -----

  function ExportStep(step: Step, table: Scripts): StepDoc {
    StepDoc(step.position, step.stepName,
            if step.scriptId.Some? && step.scriptId.value != 0 && step.scriptId.value in table.rows
            then Some(table.rows[step.scriptId.value].name) else None,
            step.isCritical,
            if step.retryCount == 0 then 1 else step.retryCount,
            if step.timeoutSeconds == 0 then 120 else step.timeoutSeconds,
            step.alwaysRun)
  }

  function ImportStep(doc: StepDoc, table: Scripts): Step
    requires table.Valid()
  {
    Step(doc.position, doc.stepName,
         if doc.scriptName.Some? && doc.scriptName.value != "" && table.HasName(doc.scriptName.value)
         then Some(table.IdOf(doc.scriptName.value)) else None,
         doc.isCritical,
         if doc.retryCount == 0 then 3 else doc.retryCount,
         if doc.timeoutSeconds == 0 then 120 else doc.timeoutSeconds,
         doc.alwaysRun)
  }

  // ----- what the seed leaves under a name -----

  lemma SeedOne(table: Scripts, file: SeedFile, name: string)
    requires table.Valid()
    ensures table.Seed(file).Valid()
    ensures RowNamed(table.Seed(file), name)
         == if table.HasName(name) then RowNamed(table, name) else FirstNamed([file], name)
  {
    hide Import;
    var after := table.Seed(file);
    if after != table {
      var row := Import(file).value;
      assert after.rows[table.next] == row;
      if after.HasName(name) {
        var id := after.IdOf(name);
        if id != table.next {
          assert table.rows[id].name == name;
        }
      }
      if table.HasName(name) {
        var id := table.IdOf(name);
        assert after.rows[id] == table.rows[id];
        after.IdIsUnique(name);
      }
    }
  }

  /**
    Whatever the table held before the seed and whatever the files, a name finds the row the table had under
    it, or else the first file imported under that name.
   */
  lemma {:induction false} SeededRow(table: Scripts, files: seq<SeedFile>, name: string)
    requires table.Valid()
    ensures SeedAll(table, files).Valid()
    ensures RowNamed(SeedAll(table, files), name)
         == if table.HasName(name) then RowNamed(table, name) else FirstNamed(files, name)
    decreases |files|
  {
    hide Import;
    if files != [] {
      SeedOne(table, files[0], name);
      SeededRow(table.Seed(files[0]), files[1..], name);
    }
  }

  // ----- exporting a library and seeding another environment from it -----

  /** The exported script is imported under this name. */
  predicate ImportsAs(row: Script, id: int, name: string) {
    Cycle(row, Unnamed(id)).Some? && Cycle(row, Unnamed(id)).value.name == name
  }

  /** No other script of the library is imported under the name of this one. */
  predicate Alone(library: Scripts, id: int)
    requires id in library.rows
  {
    forall i :: i in library.rows && i != id ==> !ImportsAs(library.rows[i], i, library.rows[id].name)
  }

  predicate Listing(library: Scripts, ids: seq<int>) {
    && (forall i :: i in library.rows ==> i in ids) && (forall i :: i in ids ==> i in library.rows)
    && (forall j, k :: 0 <= j < k < |ids| ==> ids[j] != ids[k])
  }

  lemma {:induction false} FirstOfExports(library: Scripts, ids: seq<int>, id: int)
    requires id in library.rows && Alone(library, id)
    requires forall i :: i in ids ==> i in library.rows
    ensures FirstNamed(ExportAll(library, ids), library.rows[id].name)
         == if id in ids && ImportsAs(library.rows[id], id, library.rows[id].name)
            then Cycle(library.rows[id], Unnamed(id))
            else None
    decreases |ids|
  {
    hide Import, Export;
    if ids != [] {
      assert ids[0] in ids;
      assert ExportAll(library, ids)[1..] == ExportAll(library, ids[1..]);
      FirstOfExports(library, ids[1..], id);
    }
  }

  /** Its own name brings a script back exactly when the header can carry it and the type has a suffix. */
  lemma ImportsAsItself(row: Script, id: int)
    ensures ImportsAs(row, id, row.name) <==> NameOk(row.name) && KnownType(row.scriptType)
  {
    FirstCycle(row, Unnamed(id));
  }

  /**
    Seeding any environment from an exported library, listed in any order: under a script's name one finds
    the row that was there before, or else the script as one export/import cycle leaves it, provided the
    header can carry the name and the type has a seed suffix.
   */
  lemma SeedExported(library: Scripts, ids: seq<int>, table: Scripts, id: int)
    requires table.Valid() && Listing(library, ids) && id in library.rows && Alone(library, id)
    ensures var row, seeded := library.rows[id], SeedAll(table, ExportAll(library, ids));
            && seeded.Valid()
            && RowNamed(seeded, row.name)
               == (if table.HasName(row.name) then RowNamed(table, row.name)
                   else if NameOk(row.name) && KnownType(row.scriptType) then Cycle(row, Unnamed(id))
                   else None)
  {
    hide Cycle, Export, ExportAll, SeedAll, NameOk;
    SeededRow(table, ExportAll(library, ids), library.rows[id].name);
    FirstOfExports(library, ids, id);
    ImportsAsItself(library.rows[id], id);
  }

  /** The row a step runs. */
  function LinkedRow(step: Step, table: Scripts): Option<Script> {
    if step.scriptId.Some? && step.scriptId.value in table.rows then Some(table.rows[step.scriptId.value]) else None
  }

  /** Where a step comes back, with two scripts imported under one name as well: the first file wins. */
  lemma StepLink(library: Scripts, ids: seq<int>, table: Scripts, step: Step)
    requires library.Valid() && table.Valid() && Listing(library, ids)
    requires step.scriptId.Some? && step.scriptId.value in library.rows
    ensures var name, files := library.rows[step.scriptId.value].name, ExportAll(library, ids);
            var seeded := SeedAll(table, files);
            && seeded.Valid()
            && var back := ImportStep(ExportStep(step, library), seeded);
               && (back.scriptId.Some? <==> LinkedRow(back, seeded).Some?)
               && LinkedRow(back, seeded)
                  == (if name == "" then None
                      else if table.HasName(name) then RowNamed(table, name)
                      else FirstNamed(files, name))
  {
    hide Import, Export, ExportAll, SeedAll, FirstNamed;
    SeededRow(table, ExportAll(library, ids), library.rows[step.scriptId.value].name);
  }

  /**
    Exporting a library with its runbook steps and seeding any environment from the files, the one a fresh
    migration has already filled with built-in scripts included.  A step comes back with a script exactly
    when its script's name is not empty and either the environment had the name before or the file brings
    it; and it runs its own script, as one export/import cycle leaves it, exactly when the header carries
    the name, the type has a suffix, and an earlier row of that name is that same script.
   */
  lemma StepFindsItsScript(library: Scripts, ids: seq<int>, table: Scripts, step: Step)
    requires library.Valid() && table.Valid() && Listing(library, ids)
    requires step.scriptId.Some? && step.scriptId.value in library.rows && Alone(library, step.scriptId.value)
    ensures var id := step.scriptId.value;
            var row, seeded := library.rows[id], SeedAll(table, ExportAll(library, ids));
            && seeded.Valid()
            && var back := ImportStep(ExportStep(step, library), seeded);
               && (back.scriptId.Some? <==>
                     row.name != "" && (table.HasName(row.name) || (NameOk(row.name) && KnownType(row.scriptType))))
               && ((LinkedRow(back, seeded).Some? && LinkedRow(back, seeded) == Cycle(row, Unnamed(id))) <==>
                     && NameOk(row.name) && KnownType(row.scriptType)
                     && (table.HasName(row.name) ==> RowNamed(table, row.name) == Cycle(row, Unnamed(id))))
  {
    hide Cycle, Export, ExportAll, SeedAll, FirstNamed;
    var id := step.scriptId.value;
    var row := library.rows[id];
    StepLink(library, ids, table, step);
    FirstOfExports(library, ids, id);
    ImportsAsItself(row, id);
    FirstCycle(row, Unnamed(id));
  }

  /** Its other fields come back as they were, a retry count or timeout of zero replaced by a default. */
  lemma StepFieldsSurvive(library: Scripts, table: Scripts, step: Step)
    requires table.Valid()
    ensures var back := ImportStep(ExportStep(step, library), table);
            && back.(scriptId := step.scriptId)
               == step.(retryCount := if step.retryCount == 0 then 1 else step.retryCount,
                        timeoutSeconds := if step.timeoutSeconds == 0 then 120 else step.timeoutSeconds)
            && (step.scriptId.None? ==> back.scriptId.None?)
  {
  }

  /** A step written by hand with neither a retry count nor a timeout gets three retries and two minutes. */
  lemma StepDefaults(doc: StepDoc, table: Scripts)
    requires table.Valid() && doc.retryCount == 0 && doc.timeoutSeconds == 0
    ensures ImportStep(doc, table).retryCount == 3 && ImportStep(doc, table).timeoutSeconds == 120
  {
  }
}
