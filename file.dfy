/**
 * Snapshot and export serialisation of the editor: the exported shape of the
 * store, the removal of private (`_`-prefixed) properties at every depth, the
 * snapshot list of an editor context, the export file names and the guards of
 * the XML export and of the Liquibase import.
 */
module File {
  import opened Wrappers
  import opened Json
  import opened EngineStore
  import opened JsString

  // ------------------------------------------------------- exported format

  /**
   * createJsonFormat: the four exported sub-states under their export names,
   * in this order; nothing else of the store is exported.
   */
  function CreateJsonFormat(store: Store): (r: Json)
    ensures r.JObject? && |r.props| == 4
    ensures r.props[0].key == "canvas" && r.props[1].key == "table"
    ensures r.props[2].key == "memo" && r.props[3].key == "relationship"
  {
    JObject([
      Property("canvas", store.canvasState),
      Property("table", store.tableState),
      Property("memo", store.memoState),
      Property("relationship", store.relationshipState)])
  }

  /** Each export name reads as the store's sub-state of that name. */
  lemma FormatReads(store: Store)
    ensures Get(CreateJsonFormat(store).props, "canvas") == Some(store.canvasState)
    ensures Get(CreateJsonFormat(store).props, "table") == Some(store.tableState)
    ensures Get(CreateJsonFormat(store).props, "memo") == Some(store.memoState)
    ensures Get(CreateJsonFormat(store).props, "relationship") == Some(store.relationshipState)
  {
    var props := CreateJsonFormat(store).props;
    GetFirst(props, 0, "canvas");
    GetFirst(props, 1, "table");
    GetFirst(props, 2, "memo");
    GetFirst(props, 3, "relationship");
  }

  // ------------------------------------------- private-property stripping

  /** The replacer's test: `key.startsWith('_')`. */
  predicate IsPrivateKey(key: string) {
    |key| > 0 && key[0] == '_'
  }

  /** No object anywhere inside `j` has a property with a private key. */
  predicate NoPrivateKeys(j: Json) {
    match j
    case JArray(items) => forall i :: 0 <= i < |items| ==> NoPrivateKeys(items[i])
    case JObject(props) => forall i :: 0 <= i < |props| ==> !IsPrivateKey(props[i].key) && NoPrivateKeys(props[i].value)
    case _ => true
  }

  /**
   * What JSON.stringify writes when its replacer drops every property whose key
   * starts with `_`. Array elements are passed to the replacer under their index,
   * which never starts with `_`, so arrays keep every element.
   */
  function Strip(j: Json): Json
    decreases j, 1
  {
    match j
    case JArray(items) => JArray(seq(|items|, i requires 0 <= i < |items| => Strip(items[i])))
    case JObject(props) => JObject(StripProps(props))
    case _ => j
  }

  function StripProps(props: seq<Property>): seq<Property>
    decreases props, 0
  {
    if props == [] then []
    else (if IsPrivateKey(props[0].key) then [] else [Property(props[0].key, Strip(props[0].value))])
         + StripProps(props[1..])
  }

  function StripOpt(o: Option<Json>): Option<Json> {
    match o
    case None => None
    case Some(v) => Some(Strip(v))
  }

  lemma {:induction false} StripNoPrivateKeys(j: Json)
    ensures NoPrivateKeys(Strip(j))
    decreases j, 1
  {
    match j
    case JArray(items) =>
      forall i | 0 <= i < |items| ensures NoPrivateKeys(Strip(items[i])) {
        StripNoPrivateKeys(items[i]);
      }
    case JObject(props) =>
      StripPropsNoPrivateKeys(props);
    case _ =>
  }

  lemma {:induction false} StripPropsNoPrivateKeys(props: seq<Property>)
    ensures forall i :: 0 <= i < |StripProps(props)| ==>
              !IsPrivateKey(StripProps(props)[i].key) && NoPrivateKeys(StripProps(props)[i].value)
    decreases props, 0
  {
    if props != [] {
      StripNoPrivateKeys(props[0].value);
      StripPropsNoPrivateKeys(props[1..]);
    }
  }

  /** One level of stripping: a private key reads as absent, any other key reads as its stripped value. */
  lemma {:induction false} StripPropsGet(props: seq<Property>, key: string)
    ensures Get(StripProps(props), key) == if IsPrivateKey(key) then None else StripOpt(Get(props, key))
  {
    if props != [] {
      StripPropsGet(props[1..], key);
      var p := props[0];
      if IsPrivateKey(p.key) {
        assert StripProps(props) == StripProps(props[1..]);
      } else {
        var stripped := StripProps(props);
        assert stripped == [Property(p.key, Strip(p.value))] + StripProps(props[1..]);
        assert stripped[0] == Property(p.key, Strip(p.value));
        assert stripped[1..] == StripProps(props[1..]);
      }
    }
  }

  /** Where no key is private, stripping keeps every key, in order. */
  lemma {:induction false} StripPropsKeys(props: seq<Property>)
    requires forall i :: 0 <= i < |props| ==> !IsPrivateKey(props[i].key)
    ensures |StripProps(props)| == |props|
    ensures forall i :: 0 <= i < |props| ==> StripProps(props)[i] == Property(props[i].key, Strip(props[i].value))
  {
    if props != [] {
      StripPropsKeys(props[1..]);
      assert StripProps(props) == [Property(props[0].key, Strip(props[0].value))] + StripProps(props[1..]);
    }
  }

  /** A step of a property path: an object key or an array index. */
  datatype Step = Key(key: string) | Index(index: nat)

  /** The value reached by following `path` from `j`, if every step exists. */
  function Lookup(j: Json, path: seq<Step>): Option<Json>
    decreases |path|
  {
    if path == [] then Some(j)
    else match (j, path[0])
      case (JObject(props), Key(k)) =>
        (match Get(props, k)
         case None => None
         case Some(v) => Lookup(v, path[1..]))
      case (JArray(items), Index(n)) =>
        if n < |items| then Lookup(items[n], path[1..]) else None
      case _ => None
  }

  predicate PathPublic(path: seq<Step>) {
    forall i :: 0 <= i < |path| && path[i].Key? ==> !IsPrivateKey(path[i].key)
  }

  /**
   * Stripping at every depth: following a path through the stripped value finds
   * nothing as soon as the path uses a private key, and otherwise finds exactly
   * the stripped value of what the path finds in the original.
   */
  lemma {:induction false} StripLookup(j: Json, path: seq<Step>)
    ensures Lookup(Strip(j), path) == if PathPublic(path) then StripOpt(Lookup(j, path)) else None
    decreases |path|
  {
    if path != [] {
      assert PathPublic(path) <==> (path[0].Key? ==> !IsPrivateKey(path[0].key)) && PathPublic(path[1..]) by {
        if PathPublic(path) {
          forall i | 0 <= i < |path[1..]| && path[1..][i].Key? ensures !IsPrivateKey(path[1..][i].key) {
            assert path[1..][i] == path[i + 1];
          }
        }
        if (path[0].Key? ==> !IsPrivateKey(path[0].key)) && PathPublic(path[1..]) {
          forall i | 0 <= i < |path| && path[i].Key? ensures !IsPrivateKey(path[i].key) {
            if i > 0 { assert path[i] == path[1..][i - 1]; }
          }
        }
      }
      match (j, path[0])
      case (JObject(props), Key(k)) =>
        StripPropsGet(props, k);
        match Get(props, k) {
          case None =>
          case Some(v) => StripLookup(v, path[1..]);
        }
      case (JArray(items), Index(n)) =>
        if n < |items| {
          StripLookup(items[n], path[1..]);
        }
      case _ =>
    }
  }

  /** A value without private keys passes the replacer unchanged. */
  lemma {:induction false} StripClean(j: Json)
    requires NoPrivateKeys(j)
    ensures Strip(j) == j
    decreases j, 1
  {
    match j
    case JArray(items) =>
      forall i | 0 <= i < |items| ensures Strip(items[i]) == items[i] {
        StripClean(items[i]);
      }
      assert Strip(j).items == items;
    case JObject(props) =>
      StripPropsClean(props);
    case _ =>
  }

  lemma {:induction false} StripPropsClean(props: seq<Property>)
    requires forall i :: 0 <= i < |props| ==> !IsPrivateKey(props[i].key) && NoPrivateKeys(props[i].value)
    ensures StripProps(props) == props
    decreases props, 0
  {
    if props != [] {
      StripClean(props[0].value);
      StripPropsClean(props[1..]);
    }
  }

  /** Stripping twice is stripping once. */
  lemma StripIdempotent(j: Json)
    ensures Strip(Strip(j)) == Strip(j)
  {
    StripNoPrivateKeys(j);
    StripClean(Strip(j));
  }

  /**
   * createJsonStringify, as the JSON value its text denotes: the exported format
   * with every private property removed at every depth. The indentation argument
   * only changes white space in the text and is not modelled.
   */
  function CreateJsonStringify(store: Store): (r: Json)
    ensures NoPrivateKeys(r)
    ensures r.JObject?
  {
    StripNoPrivateKeys(CreateJsonFormat(store));
    Strip(CreateJsonFormat(store))
  }

  /**
   * In the stringified store a private key reads as absent, and any other key
   * reads as the stripped value it has in the exported format: the four
   * sub-states, stripped, under their export names.
   */
  lemma StringifyReads(store: Store, key: string)
    ensures Get(CreateJsonStringify(store).props, key) ==
              if IsPrivateKey(key) then None else StripOpt(Get(CreateJsonFormat(store).props, key))
  {
    StripPropsGet(CreateJsonFormat(store).props, key);
  }

  /**
   * createStoreCopy: JSON.parse of the stringified store, a deep copy of the
   * exported format with no private key anywhere.
   */
  function CreateStoreCopy(store: Store): (r: Json)
    ensures NoPrivateKeys(r)
  {
    CreateJsonStringify(store)
  }

  /** When the store holds no private key, the copy equals the exported format. */
  lemma StoreCopyOfCleanStore(store: Store)
    requires NoPrivateKeys(CreateJsonFormat(store))
    ensures CreateStoreCopy(store) == CreateJsonFormat(store)
  {
    StripClean(CreateJsonFormat(store));
  }

  /**
   * The copy agrees with the exported format along every path that uses no
   * private key, and has nothing along any other path.
   */
  lemma StoreCopyLookup(store: Store, path: seq<Step>)
    ensures Lookup(CreateStoreCopy(store), path) ==
              if PathPublic(path) then StripOpt(Lookup(CreateJsonFormat(store), path)) else None
  {
    StripLookup(CreateJsonFormat(store), path);
  }

  // -------------------------------------------------------------- snapshots

  /** An entry of the snapshot list; the metadata's fields are not modelled. */
  datatype Snapshot = Snapshot(data: Json, metadata: Option<Json>)

  predicate AllExported(snapshots: seq<Snapshot>) {
    forall i :: 0 <= i < |snapshots| ==> NoPrivateKeys(snapshots[i].data)
  }

  /** Appending an exported snapshot keeps a list of exported snapshots exported. */
  lemma AppendExported(snapshots: seq<Snapshot>, entry: Snapshot)
    requires NoPrivateKeys(entry.data)
    ensures AllExported(snapshots) ==> AllExported(snapshots + [entry])
  {
    if AllExported(snapshots) {
      var all := snapshots + [entry];
      forall i | 0 <= i < |all| ensures NoPrivateKeys(all[i].data) {
        if i < |snapshots| {
          assert all[i] == snapshots[i];
        }
      }
    }
  }

  /** The part of the editor context the snapshot code reads and updates. */
  class EditorContext {
    var store: Store
    var snapshots: seq<Snapshot>

    /** Every recorded snapshot holds exported data: no private key anywhere. */
    ghost predicate SnapshotsExported()
      reads this
    {
      AllExported(snapshots)
    }

    constructor (store: Store)
      ensures this.store == store && snapshots == []
      ensures SnapshotsExported()
    {
      this.store := store;
      snapshots := [];
    }

    /**
     * createSnapshot: appends a copy of the store and the metadata as given;
     * the earlier snapshots and the store stay as they were, and an identical
     * last snapshot does not prevent the append.
     */
    method CreateSnapshot(metadata: Option<Json>)
      modifies this`snapshots
      ensures snapshots == old(snapshots) + [Snapshot(CreateStoreCopy(store), metadata)]
      ensures store == old(store)
      ensures old(SnapshotsExported()) ==> SnapshotsExported()
    {
      var entry := Snapshot(CreateStoreCopy(store), metadata);
      AppendExported(snapshots, entry);
      snapshots := snapshots + [entry];
    }
  }

  /** Two snapshots of an unchanged store are both kept, and they are equal. */
  method SnapshotTwice(context: EditorContext, metadata: Option<Json>)
    modifies context`snapshots
    ensures |context.snapshots| == |old(context.snapshots)| + 2
    ensures context.snapshots[|context.snapshots| - 1] == context.snapshots[|context.snapshots| - 2]
    ensures context.snapshots[..|old(context.snapshots)|] == old(context.snapshots)
  {
    ghost var entry := Snapshot(CreateStoreCopy(context.store), metadata);
    context.CreateSnapshot(metadata);
    context.CreateSnapshot(metadata);
    assert context.snapshots == old(context.snapshots) + [entry] + [entry];
  }

  // ------------------------------------------------------- export file names

  datatype ExportFormat = Png | VuerdJson | SqlDdl | Xml

  function Extension(format: ExportFormat): string {
    match format
    case Png => ".png"
    case VuerdJson => ".vuerd.json"
    case SqlDdl => ".sql"
    case Xml => ".xml"
  }

  /**
   * How `${name}` renders the optional name: an absent name renders as
   * "undefined", because `name?.trim() === ''` is false for it.
   */
  function Shown(name: Option<string>): string {
    match name
    case None => "undefined"
    case Some(n) => n
  }

  /** The part of the file name before the time stamp. */
  function Stem(name: Option<string>): string {
    if name.Some? && Trim(name.value) == "" then "unnamed" else Shown(name)
  }

  /**
   * The download name of an export at time `time` (milliseconds since the
   * epoch): the stem, a dash, the time and the format's extension. The time
   * can always be read back from the name.
   */
  function ExportFileName(name: Option<string>, time: nat, format: ExportFormat): (r: string)
    ensures |r| > |Extension(format)| && r[|r| - |Extension(format)|..] == Extension(format)
    ensures ReadTimestamp(r, Extension(format)) == Some(time)
  {
    var ext := Extension(format);
    TimestampReadBack(Stem(name), time, ext);
    Stem(name) + "-" + Decimal(time) + ext
  }

  /**
   * The time stamp in a file name ending in `ext`: the digits between the last
   * dash and the extension.
   */
  function ReadTimestamp(fileName: string, ext: string): Option<nat> {
    if |fileName| < |ext| || fileName[|fileName| - |ext|..] != ext then None
    else
      var body := fileName[..|fileName| - |ext|];
      var digits := TrailingDigits(body);
      if digits == [] || |digits| == |body| || body[|body| - |digits| - 1] != '-' then None
      else Some(DecimalValue(digits))
  }

  /** Whatever the stem, the time stamp written after its dash is read back. */
  lemma TimestampReadBack(stem: string, time: nat, ext: string)
    ensures ReadTimestamp(stem + "-" + Decimal(time) + ext, ext) == Some(time)
  {
    var body := stem + "-" + Decimal(time);
    var f := body + ext;
    assert f[..|f| - |ext|] == body;
    assert f[|f| - |ext|..] == ext;
    assert body == stem + ['-'] + Decimal(time);
    TrailingDigitsAfter(stem, '-', Decimal(time));
    assert body[|body| - |Decimal(time)| - 1] == '-';
    DecimalRoundTrip(time);
  }

  /** A name made only of white space (the empty name included) gives "unnamed-<time><ext>". */
  lemma BlankNameIsUnnamed(name: string, time: nat, format: ExportFormat)
    requires IsBlank(name)
    ensures ExportFileName(Some(name), time, format) == "unnamed-" + Decimal(time) + Extension(format)
  {
    TrimEmptyIffBlank(name);
    assert Stem(Some(name)) == "unnamed";
    assert "unnamed" + "-" == "unnamed-";
  }

  /** Any other name is used as written, untrimmed: "<name>-<time><ext>". */
  lemma NamedFileKeepsName(name: string, time: nat, format: ExportFormat)
    requires !IsBlank(name)
    ensures ExportFileName(Some(name), time, format) == name + "-" + Decimal(time) + Extension(format)
  {
    TrimEmptyIffBlank(name);
  }

  /** An absent name is not blank: it gives "undefined-<time><ext>". */
  lemma AbsentNameIsUndefined(time: nat, format: ExportFormat)
    ensures ExportFileName(None, time, format) == "undefined-" + Decimal(time) + Extension(format)
  {
    assert Stem(None) == "undefined";
    assert "undefined" + "-" == "undefined-";
  }

  // ---------------------------------------------------------------- exports

  /** What is handed to the export callback: the Blob's text and type, and the file name. */
  datatype ExportFile = ExportFile(content: string, mimeType: string, fileName: string)

  /** exportJSON: the JSON text as an application/json Blob named "<stem>-<time>.vuerd.json". */
  function ExportJson(json: string, name: Option<string>, time: nat): (r: ExportFile)
    ensures r.content == json && r.mimeType == "application/json"
    ensures ReadTimestamp(r.fileName, Extension(VuerdJson)) == Some(time)
    ensures r.fileName == ExportFileName(name, time, VuerdJson)
  {
    ExportFile(json, "application/json", ExportFileName(name, time, VuerdJson))
  }

  /** exportSQLDDL: the DDL text as an untyped Blob named "<stem>-<time>.sql". */
  function ExportSqlDdl(sql: string, name: Option<string>, time: nat): (r: ExportFile)
    ensures r.content == sql && r.mimeType == ""
    ensures ReadTimestamp(r.fileName, Extension(SqlDdl)) == Some(time)
    ensures r.fileName == ExportFileName(name, time, SqlDdl)
  {
    ExportFile(sql, "", ExportFileName(name, time, SqlDdl))
  }

  /** exportXML: nothing is exported for the empty text, which is falsy. */
  function ExportXml(xml: string, name: Option<string>, time: nat): (r: Option<ExportFile>)
    ensures r.None? <==> xml == ""
    ensures r.Some? ==> r.value.content == xml && r.value.mimeType == ""
    ensures r.Some? ==> r.value.fileName == ExportFileName(name, time, Xml)
  {
    if xml != "" then Some(ExportFile(xml, "", ExportFileName(name, time, Xml))) else None
  }

  // ------------------------------------------------------------ import guards

  /** Whether the user was asked to confirm, and whether the import goes on. */
  datatype ImportDecision = ImportDecision(askedUser: bool, proceed: bool)

  /**
   * The guard of importLiquibase. `latest` is the latest snapshot, if any,
   * `diffLength` the number of differences from it and `confirmed` the answer the
   * user would give. The condition short-circuits: the user is asked only when a
   * snapshot exists and something changed since, and only a refusal stops the import.
   */
  function ImportLiquibaseGuard(latest: Option<Snapshot>, diffLength: nat, confirmed: bool): (d: ImportDecision)
    ensures d.askedUser <==> latest.Some? && diffLength > 0
    ensures d.proceed <==> latest.None? || diffLength == 0 || confirmed
    ensures !d.proceed ==> d.askedUser && !confirmed
    ensures d.askedUser ==> (d.proceed <==> confirmed)
  {
    if latest.None? then ImportDecision(false, true)
    else if diffLength == 0 then ImportDecision(false, true)
    else ImportDecision(true, confirmed)
  }

  datatype LiquibaseFile = LiquibaseFile(path: string, value: string)

  /** Reading `files[0].path` when there is no first file throws a TypeError. */
  datatype LoadError = NoFirstFile

  /**
   * The root changelog passed on by loadLiquibaseChangelog: the first file, when
   * the files come from the VS Code extension and the first one is named
   * changelog.xml; otherwise none.
   */
  function ChangelogRoot(files: seq<LiquibaseFile>, loadType: string): (r: Result<Option<LiquibaseFile>, LoadError>)
    ensures r.Failure? <==> loadType == "vscode" && |files| == 0
    ensures r.Success? && r.value.Some? ==> |files| > 0 && r.value.value == files[0]
    ensures r.Success? ==>
              (r.value.Some? <==> loadType == "vscode" && files[0].path == "changelog.xml")
  {
    if loadType == "vscode" then
      if |files| == 0 then Failure(NoFirstFile)
      else if files[0].path == "changelog.xml" then Success(Some(files[0]))
      else Success(None)
    else Success(None)
  }
}
