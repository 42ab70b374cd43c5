/**
 * TestPlanYamlDocRoot: the root of a test plan, built from its already-loaded YAML mapping
 * and the macro definition files it can see.
 *
 * The root context holds the properties as variables and the macros as functions, and has no
 * parent. Properties are compiled before the root context exists, so they carry no context.
 */
module TestPlanRoots {
  import opened Base
  import opened Contexts
  import opened Template
  import opened Evaluation
  import opened TestPlan
  import opened TemplateProperties

  /** An entry of the `properties` mapping; a key without a value maps to null. */
  datatype Property = Property(key: string, value: Option<string>)

  /** An entry of the `sections` mapping: the section's id and its `title`. */
  datatype SectionInput = SectionInput(id: string, title: Option<string>)

  /**
   * The parts of the plan's YAML mapping the root reads. `properties` is None when it is
   * missing or null; `macros` is None when it is present with a null value, and the empty
   * list when it is missing; `sections` is None when it is missing.
   */
  datatype RootInput = RootInput(properties: Option<seq<Property>>, macros: Option<seq<string>>,
                                 title: Option<string>, sections: Option<seq<SectionInput>>)

  /**
   * The macro files the root can see: for every existing macro folder (by resolved path),
   * the macro definition in each of its regular files, by file name.
   */
  type MacroFolders = map<string, map<string, Macro>>

  datatype PlanRoot = PlanRoot(title: Option<string>, sections: seq<Section>,
                               properties: map<string, Expr>, macros: map<string, Macro>)
  {
    /** `getExpressionContext()`: the root context, holding the properties and the macros. */
    function ExpressionContext(): (c: Context)
      ensures c.MapContext? && c.parent.NoContext? && c.vars == Some(properties) && c.funcs == Some(macros)
    {
      RootContext(properties, macros)
    }
  }

  /** The keys of a YAML mapping are distinct. */
  predicate DistinctPropertyKeys(entries: seq<Property>) {
    forall i, j :: 0 <= i < j < |entries| ==> entries[i].key != entries[j].key
  }

  // ---------------------------------------------------------------------------------------
  // Properties

  /** `readProperties`: every value compiled as a template against the (still null) root context. */
  function ReadProperties(entries: seq<Property>): (r: Result<map<string, Expr>>)
    ensures r.Ok? ==> forall k :: 0 <= k < |entries| ==> entries[k].key in r.value
    ensures r.Ok? ==> forall key :: key in r.value ==> exists k :: 0 <= k < |entries| && entries[k].key == key
  {
    if entries == [] then Ok(map[])
    else
      var e :- Compile(entries[0].value, NoContext);
      var rest :- ReadProperties(entries[1..]);
      assert forall k :: 0 < k < |entries| ==> entries[k] == entries[1..][k - 1];
      Ok(rest[entries[0].key := e])
  }

  // ---------------------------------------------------------------------------------------
  // Macros

  predicate IsYml(name: string) {
    |name| >= 4 && name[|name| - 4..] == ".yml"
  }

  /** The file name without its ".yml" extension. */
  function MacroName(name: string): string
    requires IsYml(name)
  {
    name[..|name| - 4]
  }

  lemma MacroNamesAreDistinct()
    ensures forall a, b :: IsYml(a) && IsYml(b) && a != b ==> MacroName(a) != MacroName(b)
  {
    forall a, b | IsYml(a) && IsYml(b) && MacroName(a) == MacroName(b) ensures a == b {
      assert a == MacroName(a) + ".yml";
      assert b == MacroName(b) + ".yml";
    }
  }

  /** The macros of one folder: its ".yml" files, named by their file name without the extension. */
  function FolderMacros(files: map<string, Macro>): map<string, Macro> {
    MacroNamesAreDistinct();
    map f | f in files && IsYml(f) :: MacroName(f) := files[f]
  }

  /** The macro folders in the order they are read: the default `macro` folder, then the listed ones. */
  function MacroFolderPaths(defaultFolder: string, listed: seq<string>, resolve: string -> string): seq<string> {
    Dedup([defaultFolder] + Resolved(listed, resolve))
  }

  /** The listed folders, each resolved against the plan's directory. */
  function Resolved(listed: seq<string>, resolve: string -> string): (r: seq<string>)
    ensures |r| == |listed| && forall k :: 0 <= k < |listed| ==> r[k] == resolve(listed[k])
  {
    seq(|listed|, k requires 0 <= k < |listed| => resolve(listed[k]))
  }

  /** The table after `putAll` of the first `n` folders: a later folder replaces an earlier one's macro. */
  function MacroTable(folders: seq<string>, dirs: MacroFolders, n: nat): map<string, Macro>
    requires n <= |folders|
  {
    if n == 0 then map[]
    else MacroTable(folders, dirs, n - 1) + (if folders[n - 1] in dirs then FolderMacros(dirs[folders[n - 1]]) else map[])
  }

  /** `readMacros(macroFolders)`: the folder loop, folders that are not directories skipped. */
  method ReadMacros(folders: seq<string>, dirs: MacroFolders) returns (table: map<string, Macro>)
    ensures table == MacroTable(folders, dirs, |folders|)
  {
    table := map[];
    for i := 0 to |folders|
      invariant table == MacroTable(folders, dirs, i)
    {
      if folders[i] in dirs {
        table := table + FolderMacros(dirs[folders[i]]);
      }
    }
  }

  /** True when folder `f` holds a macro named `name`. */
  predicate Defines(dirs: MacroFolders, f: string, name: string) {
    f in dirs && name in FolderMacros(dirs[f])
  }

  /**
   * A macro name is in the table exactly when some folder defines it, and its definition is
   * that of the last such folder.
   */
  lemma {:induction false} LastFolderWins(folders: seq<string>, dirs: MacroFolders, n: nat, name: string)
    requires n <= |folders|
    ensures name in MacroTable(folders, dirs, n) <==> exists k :: 0 <= k < n && Defines(dirs, folders[k], name)
    ensures forall k :: 0 <= k < n && Defines(dirs, folders[k], name)
                        && (forall j :: k < j < n ==> !Defines(dirs, folders[j], name)) ==>
              MacroTable(folders, dirs, n)[name] == FolderMacros(dirs[folders[k]])[name]
  {
    if n > 0 {
      LastFolderWins(folders, dirs, n - 1, name);
      if Defines(dirs, folders[n - 1], name) {
        assert MacroTable(folders, dirs, n)[name] == FolderMacros(dirs[folders[n - 1]])[name];
      }
    }
  }

  /** The file `name.yml` in a folder defines the macro `name`. */
  lemma FolderMacroOfFile(files: map<string, Macro>, name: string)
    requires name + ".yml" in files
    ensures name in FolderMacros(files) && FolderMacros(files)[name] == files[name + ".yml"]
  {
    var f := name + ".yml";
    assert IsYml(f) && MacroName(f) == name;
    MacroNamesAreDistinct();
    assert f in files && IsYml(f);
  }

  // ---------------------------------------------------------------------------------------
  // The root

  /** The root context of a plan: the properties and the macros, no parent. */
  function RootContext(properties: map<string, Expr>, macros: map<string, Macro>): (c: Context)
    ensures c.MapContext? && c.parent.NoContext? && c.vars == Some(properties) && c.funcs == Some(macros)
  {
    MapContext(NoContext, Some(properties), Some(macros))
  }

  /** Each section's title compiled against the root context. */
  function ReadSections(sections: seq<SectionInput>, ctx: Context): Result<seq<Section>> {
    if sections == [] then Ok([])
    else
      var t :- Compile(sections[0].title, ctx);
      var rest :- ReadSections(sections[1..], ctx);
      Ok([Section(sections[0].id, t)] + rest)
  }

  /**
   * `new TestPlanYamlDocRoot(input)` from the loaded mapping: properties first, then the
   * macro folders and their macros, the root context, the raw title, and the sections.
   */
  function NewPlanRoot(input: RootInput, defaultFolder: string, resolve: string -> string, dirs: MacroFolders): Result<PlanRoot> {
    var properties :- if input.properties.None? then Ok(map[]) else ReadProperties(input.properties.value);
    if input.macros.None? then Err(NullPointerError)
    else
      var folders := MacroFolderPaths(defaultFolder, input.macros.value, resolve);
      var macros := MacroTable(folders, dirs, |folders|);
      var ctx := RootContext(properties, macros);
      if input.sections.None? then Err(NullPointerError)
      else
        var sections :- ReadSections(input.sections.value, ctx);
        Ok(PlanRoot(input.title, sections, properties, macros))
  }

  // ---------------------------------------------------------------------------------------
  // Properties of the root

  /** Every property value is its text compiled without a context. */
  lemma {:induction false} PropertiesHaveNoContext(entries: seq<Property>, k: nat)
    requires DistinctPropertyKeys(entries) && k < |entries|
    requires ReadProperties(entries).Ok?
    ensures Compile(entries[k].value, NoContext).Ok?
    ensures ReadProperties(entries).value[entries[k].key] == Compile(entries[k].value, NoContext).value
  {
    if k > 0 {
      assert DistinctPropertyKeys(entries[1..]) by {
        forall i, j | 0 <= i < j < |entries[1..]| ensures entries[1..][i].key != entries[1..][j].key {
          assert entries[1..][i] == entries[i + 1] && entries[1..][j] == entries[j + 1];
        }
      }
      PropertiesHaveNoContext(entries[1..], k - 1);
      assert entries[1..][k - 1] == entries[k];
      assert entries[0].key != entries[k].key;
    }
  }

  /**
   * A property cannot use a variable: its template was compiled before the root context
   * existed, so evaluating a property `p` whose value is `&x` fails with a NullPointerException.
   */
  lemma PropertyReferenceFails(root: PlanRoot, entries: seq<Property>, k: nat, x: string, fuel: nat)
    requires DistinctPropertyKeys(entries) && k < |entries|
    requires ReadProperties(entries).Ok? && root.properties == ReadProperties(entries).value
    requires entries[k].value == Some(['&'] + x) && forall j :: 0 <= j < |x| ==> IsVarChar(x[j])
    requires fuel >= 1
    ensures Eval(VarExpr(entries[k].key, root.ExpressionContext()), fuel) == Err(NullPointerError)
  {
    PropertiesHaveNoContext(entries, k);
    VariableTemplate(x, NoContext);
    var key := entries[k].key;
    assert root.properties[key] == VarExpr(x, NoContext);
    assert GetVar(root.ExpressionContext(), key) == Ok(VarExpr(x, NoContext));
  }

  /** A plain property evaluates, through a variable of the root context, to its own text. */
  lemma PlainPropertyEvaluates(root: PlanRoot, entries: seq<Property>, k: nat, fuel: nat)
    requires DistinctPropertyKeys(entries) && k < |entries|
    requires ReadProperties(entries).Ok? && root.properties == ReadProperties(entries).value
    requires entries[k].value.Some? && IsPlainText(entries[k].value.value)
    requires fuel >= 1
    ensures Eval(VarExpr(entries[k].key, root.ExpressionContext()), fuel) == Ok(entries[k].value)
  {
    PropertiesHaveNoContext(entries, k);
    LiteralTemplate(entries[k].value.value, NoContext);
    var key := entries[k].key;
    assert root.properties[key] == StringExpr(entries[k].value.value);
    assert GetVar(root.ExpressionContext(), key) == Ok(StringExpr(entries[k].value.value));
  }

  /**
   * The macros of a root are found in its root context, and the root context is their home:
   * it is where the names of their bodies are resolved.
   */
  lemma MacroHomeIsRootContext(input: RootInput, defaultFolder: string, resolve: string -> string,
                               dirs: MacroFolders, name: string)
    requires NewPlanRoot(input, defaultFolder, resolve, dirs).Ok?
    ensures var root := NewPlanRoot(input, defaultFolder, resolve, dirs).value;
            name in root.macros ==>
              GetFunction(root.ExpressionContext(), name) == Ok(Binding(root.macros[name], root.ExpressionContext()))
  {
  }

  /** A folder defining the name with no later folder defining it supplies the table's macro. */
  lemma FolderAfterwardsUnchallenged(folders: seq<string>, dirs: MacroFolders, name: string, w: nat)
    requires w < |folders| && Defines(dirs, folders[w], name)
    requires forall j :: w < j < |folders| ==> !Defines(dirs, folders[j], name)
    ensures name in MacroTable(folders, dirs, |folders|)
            && MacroTable(folders, dirs, |folders|)[name] == FolderMacros(dirs[folders[w]])[name]
  {
    LastFolderWins(folders, dirs, |folders|, name);
  }

  /**
   * The default folder is read first, so a listed folder's macro replaces the default
   * folder's macro of the same name.
   */
  lemma ListedFolderOverridesDefault(defaultFolder: string, listed: seq<string>, resolve: string -> string,
                                     dirs: MacroFolders, name: string, k: nat)
    requires k < |listed| && resolve(listed[k]) != defaultFolder
    requires Defines(dirs, resolve(listed[k]), name)
    requires forall j :: 0 <= j < |listed| && resolve(listed[j]) != resolve(listed[k]) ==>
               !Defines(dirs, resolve(listed[j]), name)
    ensures var folders := MacroFolderPaths(defaultFolder, listed, resolve);
            name in MacroTable(folders, dirs, |folders|) &&
            MacroTable(folders, dirs, |folders|)[name] == FolderMacros(dirs[resolve(listed[k])])[name]
  {
    var paths := Resolved(listed, resolve);
    var all := [defaultFolder] + paths;
    var folders := Dedup(all);
    var winner := resolve(listed[k]);
    assert winner in all by {
      assert all[k + 1] == paths[k] == winner;
    }
    DedupHead(all);
    var w :| 0 <= w < |folders| && folders[w] == winner;
    forall j | w < j < |folders| ensures !Defines(dirs, folders[j], name) {
      var f := folders[j];
      assert f != defaultFolder && f != winner by {
        assert folders[0] == defaultFolder;
      }
      assert f in paths by {
        assert f in all;
      }
      var i :| 0 <= i < |paths| && paths[i] == f;
    }
    FolderAfterwardsUnchallenged(folders, dirs, name, w);
  }
}
