/**
 The machine-global registries of omg_cli/antigravity_install.py and the restoring of the one row
 in each that belongs to this plugin.  A file is absent or holds bytes; bytes are a JSON value in
 some layout, or no JSON at all.  Equal bytes stand for equal hashes.
 */
module AgyRegistry {
  import opened Options

  datatype Json =
    | JNull
    | JBool(b: bool)
    | JNum(n: int)
    | JStr(s: string)
    | JArr(items: seq<Json>)
    | JObj(fields: map<string, Json>)

  /** `layout` tells apart texts of the same value; layout 0 is `json.dumps(…, sort_keys=True)`. */
  datatype Bytes = NoBytes | Text(layout: nat, json: Option<Json>)

  type File = Option<Bytes>

  datatype Registry = ImportManifest | ConfigJson | McpConfig

  const PLUGIN_NAME := "oh-my-grok"
  const LIVE_PROBE_SERVER := "omg-tools"

  function Section(name: Registry): string {
    match name
    case ImportManifest => "imports"
    case ConfigJson => "plugins"
    case McpConfig => "mcpServers"
  }

  function OwnedKey(name: Registry): string {
    if name == McpConfig then LIVE_PROBE_SERVER else PLUGIN_NAME
  }

  function Dumps(j: Json): Bytes { Text(0, Some(j)) }

  // ---------- reading ----------

  function Loads(b: Bytes): Option<Json> {
    match b
    case NoBytes => None
    case Text(_, json) => json
  }

  /** `json.loads(body) if body else {}`, an absent file reading as `{}`. */
  function Content(f: File): Option<Json> {
    match f
    case None => Some(JObj(map[]))
    case Some(b) => if b == NoBytes then Some(JObj(map[])) else Loads(b)
  }

  /** The recorded file: here an empty text is not forgiven. */
  function PriorContent(f: File): Option<Json> {
    match f
    case None => Some(JObj(map[]))
    case Some(b) => Loads(b)
  }

  predicate IsOwned(row: Json) {
    row.JObj? && "name" in row.fields && row.fields["name"] == JStr(PLUGIN_NAME)
  }

  function Foreign(rows: seq<Json>): (r: seq<Json>)
    ensures forall i :: 0 <= i < |r| ==> !IsOwned(r[i])
  {
    if |rows| == 0 then []
    else if IsOwned(rows[0]) then Foreign(rows[1..]) else [rows[0]] + Foreign(rows[1..])
  }

  function Owned(rows: seq<Json>): (r: seq<Json>)
    ensures forall i :: 0 <= i < |r| ==> IsOwned(r[i])
  {
    if |rows| == 0 then []
    else if IsOwned(rows[0]) then [rows[0]] + Owned(rows[1..]) else Owned(rows[1..])
  }

  /** `payload.get(section, default)` of an object. */
  function GetSection(payload: Json, name: Registry): Json
    requires payload.JObj?
  {
    if Section(name) in payload.fields then payload.fields[Section(name)]
    else if name == ImportManifest then JArr([]) else JObj(map[])
  }

  /** The import rows, a null list reading as empty; None where the code raises. */
  function ImportRows(payload: Json): Option<seq<Json>>
    requires payload.JObj?
  {
    var rows := GetSection(payload, ImportManifest);
    if rows == JNull then Some([]) else if rows.JArr? then Some(rows.items) else None
  }

  /** `_payload_without_owned_row`; None where it raises. */
  function WithoutOwned(payload: Json, name: Registry): (r: Option<Json>)
    ensures r.Some? ==> payload.JObj? && r.value.JObj?
  {
    if !payload.JObj? then None
    else if name == ImportManifest then
      match ImportRows(payload)
      case None => None
      case Some(rows) => Some(JObj(payload.fields["imports" := JArr(Foreign(rows))]))
    else
      var section := GetSection(payload, name);
      if !section.JObj? then None
      else Some(JObj(payload.fields[Section(name) := JObj(section.fields - {OwnedKey(name)})]))
  }

  /** `_owned_json_row` of a parsed text: the row, JNull for none; None where the code raises. */
  function OwnedRowOf(payload: Json, name: Registry): Option<Json> {
    if !payload.JObj? then None
    else if name == ImportManifest then
      match ImportRows(payload)
      case None => None
      case Some(rows) =>
        var mine := Owned(rows);
        if |mine| > 1 then None else Some(if |mine| == 1 then mine[0] else JNull)
    else
      var section := GetSection(payload, name);
      if !section.JObj? then None
      else Some(if OwnedKey(name) in section.fields then section.fields[OwnedKey(name)] else JNull)
  }

  function OwnedRow(f: File, name: Registry): Option<Json> {
    match Content(f)
    case None => None
    case Some(payload) => OwnedRowOf(payload, name)
  }

  // ---------- restoring ----------

  /** The current object with its own row replaced by the recorded one; None where the code raises. */
  function PutRow(current: Json, name: Registry, row: Json): (r: Option<Json>)
    requires current.JObj?
    ensures r.Some? ==> r.value.JObj? && Section(name) in r.value.fields
  {
    var section := GetSection(current, name);
    if name == ImportManifest then
      if !section.JArr? then None
      else Some(JObj(current.fields["imports" := JArr(Foreign(section.items) + (if row == JNull then [] else [row]))]))
    else
      if !section.JObj? then None
      else
        var fields := if row == JNull then section.fields - {OwnedKey(name)} else section.fields[OwnedKey(name) := row];
        Some(JObj(current.fields[Section(name) := JObj(fields)]))
  }

  /** Nothing is in the object but an empty section. */
  predicate Compactable(current: Json, name: Registry)
    requires current.JObj?
  {
    if Section(name) in current.fields
        && (current.fields[Section(name)] == JObj(map[]) || current.fields[Section(name)] == JArr([]))
    then current.fields - {Section(name)} == map[]
    else current.fields == map[]
  }

  /** One registry of `_restore_owned_registry_rows`; None where the code raises. */
  function RestoreRegistry(current: File, prior: File, name: Registry): Option<File> {
    match (Content(current), PriorContent(prior))
    case (Some(c), Some(p)) =>
      if !c.JObj? || !p.JObj? then None
      else
        (match (WithoutOwned(c, name), WithoutOwned(p, name))
         case (Some(cw), Some(pw)) =>
           if cw == pw then Some(prior)
           else
             (match OwnedRow(prior, name)
              case None => None
              case Some(row) =>
                match PutRow(c, name, row)
                case None => None
                case Some(edited) =>
                  if prior.None? && Compactable(edited, name) then Some(None) else Some(Some(Dumps(edited))))
         case _ => None)
    case _ => None
  }

  /** `_owned_registry_rows_match` for one registry. */
  predicate RowsMatch(current: File, prior: File, name: Registry) {
    OwnedRow(current, name).Some? && OwnedRow(current, name) == OwnedRow(prior, name)
  }

  // ---------- what restoring does ----------

  lemma {:induction false} ForeignAppend(a: seq<Json>, row: Json)
    ensures Foreign(a + [row]) == if IsOwned(row) then Foreign(a) else Foreign(a) + [row]
    ensures Owned(a + [row]) == if IsOwned(row) then Owned(a) + [row] else Owned(a)
  {
    if |a| == 0 {
      assert (a + [row])[1..] == [];
      assert a + [row] == [row];
    } else {
      assert (a + [row])[1..] == a[1..] + [row];
      ForeignAppend(a[1..], row);
    }
  }

  lemma {:induction false} ForeignTwice(a: seq<Json>)
    ensures Foreign(Foreign(a)) == Foreign(a) && Owned(Foreign(a)) == []
  {
    if |a| > 0 {
      ForeignTwice(a[1..]);
      if !IsOwned(a[0]) { assert ([a[0]] + Foreign(a[1..]))[1..] == Foreign(a[1..]); }
    }
  }

  /** A row that can have come out of a registry. */
  predicate RowFits(row: Json, name: Registry) {
    name == ImportManifest && row != JNull ==> IsOwned(row)
  }

  lemma OwnedRowFits(payload: Json, name: Registry)
    requires OwnedRowOf(payload, name).Some?
    ensures RowFits(OwnedRowOf(payload, name).value, name)
  {}

  /** Putting a row in leaves the rest alone, and it is the row found afterwards; twice is once. */
  lemma PutRowFacts(current: Json, name: Registry, row: Json)
    requires current.JObj? && RowFits(row, name) && PutRow(current, name, row).Some?
    ensures var edited := PutRow(current, name, row).value;
      && OwnedRowOf(edited, name) == Some(row)
      && WithoutOwned(edited, name) == WithoutOwned(current, name)
      && PutRow(edited, name, row) == Some(edited)
  {
    hide Foreign, Owned, IsOwned;
    var edited := PutRow(current, name, row).value;
    if name == ImportManifest {
      var rows := GetSection(current, name).items;
      ForeignTwice(rows);
      if row != JNull { ForeignAppend(Foreign(rows), row); }
      assert Foreign(rows) + [] == Foreign(rows);
      var items := Foreign(rows) + (if row == JNull then [] else [row]);
      assert GetSection(edited, name) == JArr(items);
      assert Foreign(items) == Foreign(rows);
      assert edited.fields["imports" := JArr(items)] == edited.fields;
      assert edited.fields["imports" := JArr(Foreign(rows))] == current.fields["imports" := JArr(Foreign(rows))];
    } else {
      var key, section := OwnedKey(name), GetSection(current, name).fields;
      assert (section - {key}) - {key} == section - {key};
      assert section[key := row] - {key} == section - {key};
      assert section[key := row][key := row] == section[key := row];
      var s := Section(name);
      assert edited.fields[s := JObj(section - {key})] == current.fields[s := JObj(section - {key})];
      var put := if row == JNull then section - {key} else section[key := row];
      assert GetSection(edited, name) == JObj(put);
      assert (if row == JNull then put - {key} else put[key := row]) == put;
      assert edited.fields[s := JObj(put)] == edited.fields;
    }
  }

  lemma EmptiedObject(edited: Json, name: Registry)
    requires edited.JObj? && Section(name) in edited.fields && Compactable(edited, name)
    requires WithoutOwned(edited, name).Some?
    ensures WithoutOwned(edited, name) == WithoutOwned(JObj(map[]), name)
    ensures OwnedRowOf(edited, name) == OwnedRowOf(JObj(map[]), name)
  {
    var s := Section(name);
    var v := edited.fields[s];
    var rest := edited.fields - {s};
    assert rest == map[];
    assert forall k :: k in edited.fields ==> k == s || k in rest;
    assert edited.fields == map[s := v];
    assert map[][s := v] == map[s := v];
    if name == ImportManifest {
      assert v == JArr([]);
      var none: map<string, Json> := map[];
      assert edited.fields["imports" := JArr([])] == none["imports" := JArr([])];
    } else {
      var none: map<string, Json> := map[];
      assert none - {OwnedKey(name)} == none;
      assert v == JObj(none);
      assert edited.fields[s := JObj(none)] == none[s := JObj(none)];
      assert GetSection(JObj(none), name) == JObj(none);
      assert OwnedKey(name) !in none;
    }
  }

  /**
   Restoring that does not raise leaves everything but the owned row as it was, leaves the recorded
   row wherever the record holds it only once, and done twice changes nothing more.
   */
  lemma RestoreRegistryFacts(current: File, prior: File, name: Registry)
    requires RestoreRegistry(current, prior, name).Some?
    ensures var r := RestoreRegistry(current, prior, name).value;
      && Content(r).Some? && Content(current).Some?
      && WithoutOwned(Content(r).value, name) == WithoutOwned(Content(current).value, name)
      && WithoutOwned(Content(r).value, name).Some?
      && (RowsMatch(r, prior, name) <==> OwnedRow(prior, name).Some?)
      && RestoreRegistry(r, prior, name) == Some(r)
  {
    hide WithoutOwned, OwnedRowOf, PutRow, Compactable;
    var c, p := Content(current).value, PriorContent(prior).value;
    var r := RestoreRegistry(current, prior, name).value;
    assert Content(prior) == Some(p);
    if WithoutOwned(c, name) != WithoutOwned(p, name) {
      var row := OwnedRow(prior, name).value;
      OwnedRowFits(p, name);
      PutRowFacts(c, name, row);
      var edited := PutRow(c, name, row).value;
      if prior.None? && Compactable(edited, name) {
        EmptiedObject(edited, name);
      }
    }
  }
}
