/**
 * Analysis workspaces (src/analysis_workspace.rs): the checks a workspace
 * payload passes before anything is written, the rows its nodes become, the
 * name check of a rename, and the comma-separated text in which a node's
 * NAGs (numeric annotation glyphs) are stored.
 */
module Workspace {
  import opened Wrappers
  import opened Text
  import Query

  /** One node of an analysis tree as the caller sends it. */
  datatype WorkspaceNode = WorkspaceNode(
    id: string,
    parentId: Option<string>,
    san: Option<string>,
    uci: Option<string>,
    fen: string,
    comment: string,
    nags: seq<string>,
    sortIndex: int)

  datatype WorkspaceError = InvalidInput(message: string)

  /** The trimmed header fields of a payload that passed validation. */
  datatype ValidSave = ValidSave(sourceDbPath: string, name: string, rootNodeId: string, currentNodeId: Option<string>)

  const SOURCE_REQUIRED: string := "source_db_path is required"
  const NAME_REQUIRED: string := "workspace name is required"
  const ROOT_REQUIRED: string := "root_node_id is required"
  const NODES_REQUIRED: string := "at least one analysis node is required"
  const NODE_ID_EMPTY: string := "node id cannot be empty"
  const NODE_FEN_EMPTY: string := "node fen cannot be empty"

  function RootNotFound(root: string): string {
    "root node '" + root + "' was not found in node payload"
  }

  function CurrentNotFound(current: string): string {
    "current node '" + current + "' was not found in node payload"
  }

  function ParentNotFound(parent: string, nodeId: string): string {
    "parent node '" + parent + "' for node '" + nodeId + "' was not found in node payload"
  }

  /** An optional reference trimmed, with a blank one meaning none (`.map(str::trim).filter(..)`). */
  function Reference(value: Option<string>): (r: Option<string>)
    ensures r.None? <==> value.None? || IsBlank(value.value)
    ensures r.Some? ==> r.value == Trim(value.value) && r.value != []
  {
    Query.NormalizedFilterText(value)
  }

  // ---------------------------------------------------------------------
  // Validation of a save, as a function of the payload

  /** The first node, from index `i` on, with a blank id or a blank FEN, reported as its message. */
  function FieldsError(nodes: seq<WorkspaceNode>, i: nat): Option<string>
    requires i <= |nodes|
    decreases |nodes| - i
  {
    if i == |nodes| then None
    else if IsBlank(nodes[i].id) then Some(NODE_ID_EMPTY)
    else if IsBlank(nodes[i].fen) then Some(NODE_FEN_EMPTY)
    else FieldsError(nodes, i + 1)
  }

  /** The set of trimmed node ids (the `HashSet` the save collects). */
  function NodeIds(nodes: seq<WorkspaceNode>): set<string> {
    set i | 0 <= i < |nodes| :: Trim(nodes[i].id)
  }

  /** A node whose parent reference is given but names no node of the payload. */
  predicate DanglingParent(node: WorkspaceNode, ids: set<string>) {
    Reference(node.parentId).Some? && Reference(node.parentId).value !in ids
  }

  /** The first node, from index `i` on, whose parent names no node, reported as its message. */
  function ParentError(nodes: seq<WorkspaceNode>, ids: set<string>, i: nat): Option<string>
    requires i <= |nodes|
    decreases |nodes| - i
  {
    if i == |nodes| then None
    else if DanglingParent(nodes[i], ids) then
      Some(ParentNotFound(Reference(nodes[i].parentId).value, nodes[i].id))
    else ParentError(nodes, ids, i + 1)
  }

  /** The header fields as the save trims them; a blank current node id means none. */
  function Header(sourceDbPath: string, name: string, rootNodeId: string, currentNodeId: Option<string>): ValidSave {
    ValidSave(Trim(sourceDbPath), Trim(name), Trim(rootNodeId), Reference(currentNodeId))
  }

  /** The message of the first check the trimmed payload fails, in the order the save checks. */
  function SaveError(header: ValidSave, nodes: seq<WorkspaceNode>): Option<string> {
    if header.sourceDbPath == [] then Some(SOURCE_REQUIRED)
    else if header.name == [] then Some(NAME_REQUIRED)
    else if header.rootNodeId == [] then Some(ROOT_REQUIRED)
    else if nodes == [] then Some(NODES_REQUIRED)
    else if FieldsError(nodes, 0).Some? then FieldsError(nodes, 0)
    else if header.rootNodeId !in NodeIds(nodes) then Some(RootNotFound(header.rootNodeId))
    else if header.currentNodeId.Some? && header.currentNodeId.value !in NodeIds(nodes) then
      Some(CurrentNotFound(header.currentNodeId.value))
    else ParentError(nodes, NodeIds(nodes), 0)
  }

  /** The validation block of `save_analysis_workspace`. */
  function SaveValidation(sourceDbPath: string, name: string, rootNodeId: string, currentNodeId: Option<string>,
                          nodes: seq<WorkspaceNode>): Result<ValidSave, WorkspaceError>
  {
    var header := Header(sourceDbPath, name, rootNodeId, currentNodeId);
    match SaveError(header, nodes)
    case Some(message) => Err(InvalidInput(message))
    case None => Ok(header)
  }

  // ---------------------------------------------------------------------
  // Validation of a save, step by step

  /** `save_analysis_workspace` up to the first clock or database access. */
  method ValidateSave(sourceDbPath: string, name: string, rootNodeId: string, currentNodeId: Option<string>,
                      nodes: seq<WorkspaceNode>) returns (r: Result<ValidSave, WorkspaceError>)
    ensures r == SaveValidation(sourceDbPath, name, rootNodeId, currentNodeId, nodes)
  {
    var source := Trim(sourceDbPath);
    var trimmedName := Trim(name);
    var root := Trim(rootNodeId);
    var current := Reference(currentNodeId);
    r := CheckSave(ValidSave(source, trimmedName, root, current), nodes);
  }

  /** The checks of the save on its trimmed header, with the node loops. */
  method CheckSave(header: ValidSave, nodes: seq<WorkspaceNode>) returns (r: Result<ValidSave, WorkspaceError>)
    ensures r == match SaveError(header, nodes) case Some(m) => Err(InvalidInput(m)) case None => Ok(header)
  {
    if header.sourceDbPath == [] {
      return Err(InvalidInput(SOURCE_REQUIRED));
    }
    if header.name == [] {
      return Err(InvalidInput(NAME_REQUIRED));
    }
    if header.rootNodeId == [] {
      return Err(InvalidInput(ROOT_REQUIRED));
    }
    if nodes == [] {
      return Err(InvalidInput(NODES_REQUIRED));
    }

    var fields := CheckNodeFields(nodes);
    if fields.Some? {
      return Err(InvalidInput(fields.value));
    }

    var nodeIds := NodeIds(nodes);
    if header.rootNodeId !in nodeIds {
      return Err(InvalidInput(RootNotFound(header.rootNodeId)));
    }
    if header.currentNodeId.Some? && header.currentNodeId.value !in nodeIds {
      return Err(InvalidInput(CurrentNotFound(header.currentNodeId.value)));
    }

    var parents := CheckParents(nodes, nodeIds);
    if parents.Some? {
      return Err(InvalidInput(parents.value));
    }
    return Ok(header);
  }

  /** The first loop of the validation: every node needs an id and a FEN. */
  method CheckNodeFields(nodes: seq<WorkspaceNode>) returns (error: Option<string>)
    ensures error == FieldsError(nodes, 0)
  {
    for i := 0 to |nodes|
      invariant FieldsError(nodes, 0) == FieldsError(nodes, i)
    {
      if Trim(nodes[i].id) == [] {
        return Some(NODE_ID_EMPTY);
      }
      if Trim(nodes[i].fen) == [] {
        return Some(NODE_FEN_EMPTY);
      }
    }
    return None;
  }

  /** The second loop of the validation: every given parent must name a node. */
  method CheckParents(nodes: seq<WorkspaceNode>, ids: set<string>) returns (error: Option<string>)
    ensures error == ParentError(nodes, ids, 0)
  {
    for i := 0 to |nodes|
      invariant ParentError(nodes, ids, 0) == ParentError(nodes, ids, i)
    {
      var parent := Reference(nodes[i].parentId);
      if parent.Some? && parent.value !in ids {
        return Some(ParentNotFound(parent.value, nodes[i].id));
      }
    }
    return None;
  }

  // ---------------------------------------------------------------------
  // Properties of the validation

  /** Every node has a non-blank id and a non-blank FEN. */
  predicate NodesFilled(nodes: seq<WorkspaceNode>) {
    forall i :: 0 <= i < |nodes| ==> !IsBlank(nodes[i].id) && !IsBlank(nodes[i].fen)
  }

  /** Every given parent names a node. */
  predicate ParentsResolve(nodes: seq<WorkspaceNode>, ids: set<string>) {
    forall i :: 0 <= i < |nodes| ==> !DanglingParent(nodes[i], ids)
  }

  lemma {:induction false} FieldsErrorNone(nodes: seq<WorkspaceNode>, i: nat)
    requires i <= |nodes|
    ensures FieldsError(nodes, i).None? <==>
      forall j :: i <= j < |nodes| ==> !IsBlank(nodes[j].id) && !IsBlank(nodes[j].fen)
    decreases |nodes| - i
  {
    if i < |nodes| {
      FieldsErrorNone(nodes, i + 1);
    }
  }

  lemma {:induction false} ParentErrorNone(nodes: seq<WorkspaceNode>, ids: set<string>, i: nat)
    requires i <= |nodes|
    ensures ParentError(nodes, ids, i).None? <==> forall j :: i <= j < |nodes| ==> !DanglingParent(nodes[j], ids)
    decreases |nodes| - i
  {
    if i < |nodes| {
      ParentErrorNone(nodes, ids, i + 1);
    }
  }

  /** The trimmed payload passes every check exactly when each holds. */
  lemma SaveErrorNone(header: ValidSave, nodes: seq<WorkspaceNode>)
    ensures SaveError(header, nodes).None? <==>
      && header.sourceDbPath != [] && header.name != [] && header.rootNodeId != []
      && nodes != [] && NodesFilled(nodes)
      && header.rootNodeId in NodeIds(nodes)
      && (header.currentNodeId.None? || header.currentNodeId.value in NodeIds(nodes))
      && ParentsResolve(nodes, NodeIds(nodes))
  {
    FieldsErrorNone(nodes, 0);
    ParentErrorNone(nodes, NodeIds(nodes), 0);
  }

  /**
   * A payload is accepted exactly when the source path, the name and the root id
   * are not blank, there is a node, every node has an id and a FEN, the root and
   * any given current node are node ids, and every given parent is a node id; the
   * accepted header fields are the trimmed ones.
   */
  lemma SaveAcceptedIff(sourceDbPath: string, name: string, rootNodeId: string, currentNodeId: Option<string>,
                        nodes: seq<WorkspaceNode>)
    ensures var r := SaveValidation(sourceDbPath, name, rootNodeId, currentNodeId, nodes);
      var ids := NodeIds(nodes);
      var current := Reference(currentNodeId);
      && (r.Ok? <==>
            && !IsBlank(sourceDbPath) && !IsBlank(name) && !IsBlank(rootNodeId)
            && nodes != [] && NodesFilled(nodes)
            && Trim(rootNodeId) in ids
            && (current.None? || current.value in ids)
            && ParentsResolve(nodes, ids))
      && (r.Ok? ==> r.value == ValidSave(Trim(sourceDbPath), Trim(name), Trim(rootNodeId), current))
  {
    SaveErrorNone(Header(sourceDbPath, name, rootNodeId, currentNodeId), nodes);
  }

  /** The first node with a blank id or FEN is the one reported, the id before the FEN. */
  lemma {:induction false} FieldsErrorFirst(nodes: seq<WorkspaceNode>, i: nat)
    requires i <= |nodes|
    requires FieldsError(nodes, i).Some?
    ensures exists k ::
      && i <= k < |nodes|
      && (IsBlank(nodes[k].id) || IsBlank(nodes[k].fen))
      && (forall j :: i <= j < k ==> !IsBlank(nodes[j].id) && !IsBlank(nodes[j].fen))
      && FieldsError(nodes, i).value == if IsBlank(nodes[k].id) then NODE_ID_EMPTY else NODE_FEN_EMPTY
    decreases |nodes| - i
  {
    if !IsBlank(nodes[i].id) && !IsBlank(nodes[i].fen) {
      FieldsErrorFirst(nodes, i + 1);
      var k :|
        && i + 1 <= k < |nodes|
        && (IsBlank(nodes[k].id) || IsBlank(nodes[k].fen))
        && (forall j :: i + 1 <= j < k ==> !IsBlank(nodes[j].id) && !IsBlank(nodes[j].fen))
        && FieldsError(nodes, i + 1).value == if IsBlank(nodes[k].id) then NODE_ID_EMPTY else NODE_FEN_EMPTY;
      assert forall j :: i <= j < k ==> !IsBlank(nodes[j].id) && !IsBlank(nodes[j].fen);
    }
  }

  /** The first node with a dangling parent is the one reported, naming the trimmed parent and the node's id as given. */
  lemma {:induction false} ParentErrorFirst(nodes: seq<WorkspaceNode>, ids: set<string>, i: nat)
    requires i <= |nodes|
    requires ParentError(nodes, ids, i).Some?
    ensures exists k ::
      && i <= k < |nodes|
      && DanglingParent(nodes[k], ids)
      && (forall j :: i <= j < k ==> !DanglingParent(nodes[j], ids))
      && ParentError(nodes, ids, i).value == ParentNotFound(Reference(nodes[k].parentId).value, nodes[k].id)
    decreases |nodes| - i
  {
    if !DanglingParent(nodes[i], ids) {
      ParentErrorFirst(nodes, ids, i + 1);
      var k :|
        && i + 1 <= k < |nodes|
        && DanglingParent(nodes[k], ids)
        && (forall j :: i + 1 <= j < k ==> !DanglingParent(nodes[j], ids))
        && ParentError(nodes, ids, i + 1).value == ParentNotFound(Reference(nodes[k].parentId).value, nodes[k].id);
      assert forall j :: i <= j < k ==> !DanglingParent(nodes[j], ids);
    }
  }

  /** An empty node list is refused once the header fields are present. */
  lemma EmptyNodesRefused(sourceDbPath: string, name: string, rootNodeId: string, currentNodeId: Option<string>)
    requires !IsBlank(sourceDbPath) && !IsBlank(name) && !IsBlank(rootNodeId)
    ensures SaveValidation(sourceDbPath, name, rootNodeId, currentNodeId, []) == Err(InvalidInput(NODES_REQUIRED))
  {
  }

  // ---------------------------------------------------------------------
  // The stored rows

  /** A node as the save stores it: trimmed id and FEN, blank optional fields absent, NAGs as text. */
  datatype NodeRow = NodeRow(
    nodeId: string,
    parentNodeId: Option<string>,
    san: Option<string>,
    uci: Option<string>,
    fen: string,
    comment: string,
    nags: string,
    sortIndex: int)

  function ToRow(node: WorkspaceNode): NodeRow {
    NodeRow(Trim(node.id), Reference(node.parentId), Reference(node.san), Reference(node.uci),
            Trim(node.fen), node.comment, SerializeNags(node.nags), node.sortIndex)
  }

  /**
   * The rows of an accepted payload form a closed forest: every row has a
   * non-empty id and FEN, the root is a row id, and every parent a row names
   * is the id of a row.
   */
  lemma AcceptedRowsClosed(sourceDbPath: string, name: string, rootNodeId: string, currentNodeId: Option<string>,
                           nodes: seq<WorkspaceNode>, rows: seq<NodeRow>)
    requires SaveValidation(sourceDbPath, name, rootNodeId, currentNodeId, nodes).Ok?
    requires |rows| == |nodes| && forall i :: 0 <= i < |nodes| ==> rows[i] == ToRow(nodes[i])
    ensures forall i :: 0 <= i < |rows| ==> rows[i].nodeId != [] && rows[i].fen != []
    ensures exists k :: 0 <= k < |rows| && rows[k].nodeId == Trim(rootNodeId)
    ensures forall i :: 0 <= i < |rows| && rows[i].parentNodeId.Some? ==>
      exists k :: 0 <= k < |rows| && rows[k].nodeId == rows[i].parentNodeId.value
  {
    SaveAcceptedIff(sourceDbPath, name, rootNodeId, currentNodeId, nodes);
    RowsAreNodes(nodes, rows);
  }

  lemma RowsAreNodes(nodes: seq<WorkspaceNode>, rows: seq<NodeRow>)
    requires |rows| == |nodes| && forall i :: 0 <= i < |nodes| ==> rows[i] == ToRow(nodes[i])
    requires NodesFilled(nodes) && ParentsResolve(nodes, NodeIds(nodes))
    ensures forall i :: 0 <= i < |rows| ==> rows[i].nodeId != [] && rows[i].fen != []
    ensures forall x :: x in NodeIds(nodes) ==> exists k :: 0 <= k < |rows| && rows[k].nodeId == x
    ensures forall i :: 0 <= i < |rows| && rows[i].parentNodeId.Some? ==> rows[i].parentNodeId.value in NodeIds(nodes)
  {
    forall x | x in NodeIds(nodes) ensures exists k :: 0 <= k < |rows| && rows[k].nodeId == x {
      var k :| 0 <= k < |nodes| && x == Trim(nodes[k].id);
      assert rows[k].nodeId == x;
    }
    forall i | 0 <= i < |rows| && rows[i].parentNodeId.Some? ensures rows[i].parentNodeId.value in NodeIds(nodes) {
      assert !DanglingParent(nodes[i], NodeIds(nodes));
    }
  }

  // ---------------------------------------------------------------------
  // Rename

  /** The name check of `rename_analysis_workspace`: the trimmed name, which must not be blank. */
  function RenameName(name: string): (r: Result<string, WorkspaceError>)
    ensures r.Ok? <==> !IsBlank(name)
    ensures r.Ok? ==> r.value == Trim(name) && r.value != []
    ensures r.Err? ==> r.error == InvalidInput(NAME_REQUIRED)
  {
    var trimmed := Trim(name);
    if trimmed == [] then Err(InvalidInput(NAME_REQUIRED)) else Ok(trimmed)
  }

  /** Rename refuses exactly the names a save with a source path refuses for its name, with the same message. */
  lemma RenameAgreesWithSave(sourceDbPath: string, name: string, rootNodeId: string, currentNodeId: Option<string>,
                             nodes: seq<WorkspaceNode>)
    requires !IsBlank(sourceDbPath)
    ensures RenameName(name).Err? <==>
      SaveValidation(sourceDbPath, name, rootNodeId, currentNodeId, nodes) == Err(InvalidInput(NAME_REQUIRED))
  {
    if !IsBlank(name) {
      SaveErrorNotName(Header(sourceDbPath, name, rootNodeId, currentNodeId), nodes);
    }
  }

  /** Once the name is present, no later check of a save reports the name message. */
  lemma SaveErrorNotName(header: ValidSave, nodes: seq<WorkspaceNode>)
    requires header.name != []
    ensures SaveError(header, nodes) != Some(NAME_REQUIRED)
  {
    var e := SaveError(header, nodes);
    if e.Some? {
      SaveErrorInitial(header, nodes);
      assert NAME_REQUIRED[0] == 'w';
    }
  }

  /** The first letter of each message a save can report after the name check. */
  lemma SaveErrorInitial(header: ValidSave, nodes: seq<WorkspaceNode>)
    requires header.name != [] && SaveError(header, nodes).Some?
    ensures SaveError(header, nodes).value != [] && SaveError(header, nodes).value[0] in "sranpc"
  {
    if header.sourceDbPath == [] {
      assert SOURCE_REQUIRED[0] == 's';
    } else if header.rootNodeId == [] {
      assert ROOT_REQUIRED[0] == 'r';
    } else if nodes == [] {
      assert NODES_REQUIRED[0] == 'a';
    } else if FieldsError(nodes, 0).Some? {
      FieldsErrorMessage(nodes, 0);
      assert NODE_ID_EMPTY[0] == 'n' && NODE_FEN_EMPTY[0] == 'n';
    } else if header.rootNodeId !in NodeIds(nodes) {
      assert RootNotFound(header.rootNodeId)[0] == 'r';
    } else if header.currentNodeId.Some? && header.currentNodeId.value !in NodeIds(nodes) {
      assert CurrentNotFound(header.currentNodeId.value)[0] == 'c';
    } else {
      ParentErrorInitial(nodes, NodeIds(nodes), 0);
    }
  }

  lemma {:induction false} FieldsErrorMessage(nodes: seq<WorkspaceNode>, i: nat)
    requires i <= |nodes| && FieldsError(nodes, i).Some?
    ensures FieldsError(nodes, i).value == NODE_ID_EMPTY || FieldsError(nodes, i).value == NODE_FEN_EMPTY
    decreases |nodes| - i
  {
    if !IsBlank(nodes[i].id) && !IsBlank(nodes[i].fen) {
      FieldsErrorMessage(nodes, i + 1);
    }
  }

  lemma {:induction false} ParentErrorInitial(nodes: seq<WorkspaceNode>, ids: set<string>, i: nat)
    requires i <= |nodes| && ParentError(nodes, ids, i).Some?
    ensures ParentError(nodes, ids, i).value != [] && ParentError(nodes, ids, i).value[0] == 'p'
    decreases |nodes| - i
  {
    if !DanglingParent(nodes[i], ids) {
      ParentErrorInitial(nodes, ids, i + 1);
    }
  }

  // ---------------------------------------------------------------------
  // NAG codec

  /** The entries trimmed, with the blank ones dropped, in order. */
  function TrimmedEntries(entries: seq<string>): (r: seq<string>)
    ensures |r| <= |entries|
    ensures forall i :: 0 <= i < |r| ==> r[i] != [] && Trim(r[i]) == r[i]
  {
    if entries == [] then []
    else
      var t := Trim(entries[0]);
      TrimIdempotent(entries[0]);
      (if t == [] then [] else [t]) + TrimmedEntries(entries[1..])
  }

  /** Each entry is handled on its own: the result for a concatenation is the concatenation of the results. */
  lemma {:induction false} TrimmedEntriesAppend(a: seq<string>, b: seq<string>)
    ensures TrimmedEntries(a + b) == TrimmedEntries(a) + TrimmedEntries(b)
    decreases |a|
  {
    if a != [] {
      assert (a + b)[0] == a[0] && (a + b)[1..] == a[1..] + b;
      TrimmedEntriesAppend(a[1..], b);
    } else {
      assert a + b == b;
    }
  }

  /** A single entry is dropped when blank and kept trimmed otherwise. */
  lemma TrimmedEntriesSingle(e: string)
    ensures TrimmedEntries([e]) == if IsBlank(e) then [] else [Trim(e)]
  {
    assert [e][1..] == [];
  }

  /** `serialize_nags` */
  function SerializeNags(nags: seq<string>): string {
    Join(TrimmedEntries(nags), ",")
  }

  /** `parse_nags` */
  function ParseNags(raw: string): (r: seq<string>)
    ensures forall i :: 0 <= i < |r| ==> r[i] != [] && ',' !in r[i] && Trim(r[i]) == r[i]
  {
    var pieces := Split(raw, ',');
    TrimmedCommaFree(pieces);
    TrimmedEntries(pieces)
  }

  /**
   * Reading stored text handles the text between commas piece by piece: a
   * comma-free piece gives its trimmed text, or nothing when it is blank.
   */
  lemma ParseNagsPieces(a: string, b: string)
    ensures ParseNags(a + "," + b) == ParseNags(a) + ParseNags(b)
    ensures ',' !in a ==> ParseNags(a) == if IsBlank(a) then [] else [Trim(a)]
  {
    SplitAround(a, ',', b);
    assert a + "," + b == a + [','] + b;
    TrimmedEntriesAppend(Split(a, ','), Split(b, ','));
    if ',' !in a {
      SplitNone(a, ',');
      TrimmedEntriesSingle(a);
    }
  }

  /** Trimming keeps a character out that was out. */
  lemma {:induction false} TrimKeepsOut(s: string, c: char)
    requires c !in s
    ensures c !in Trim(s)
    decreases |s|
  {
    if |s| > 0 && IsWhitespace(s[0]) {
      assert forall k :: 0 <= k < |s| - 1 ==> s[1..][k] == s[k + 1];
      TrimKeepsOut(s[1..], c);
    } else if |s| > 0 && IsWhitespace(s[|s| - 1]) {
      assert forall k :: 0 <= k < |s| - 1 ==> s[..|s| - 1][k] == s[k];
      TrimKeepsOut(s[..|s| - 1], c);
    }
  }

  lemma {:induction false} TrimmedCommaFree(entries: seq<string>)
    requires forall i :: 0 <= i < |entries| ==> ',' !in entries[i]
    ensures forall i :: 0 <= i < |TrimmedEntries(entries)| ==> ',' !in TrimmedEntries(entries)[i]
  {
    if entries != [] {
      TrimKeepsOut(entries[0], ',');
      TrimmedCommaFree(entries[1..]);
    }
  }

  /** Trimmed, non-empty entries pass through `TrimmedEntries` unchanged. */
  lemma {:induction false} TrimmedEntriesFixed(entries: seq<string>)
    requires forall i :: 0 <= i < |entries| ==> entries[i] != [] && Trim(entries[i]) == entries[i]
    ensures TrimmedEntries(entries) == entries
  {
    if entries != [] {
      TrimmedEntriesFixed(entries[1..]);
    }
  }

  /** Storing NAGs and reading them back gives their trimmed non-blank entries in order, when no entry holds a comma. */
  lemma SerializeParse(nags: seq<string>)
    requires forall i :: 0 <= i < |nags| ==> ',' !in nags[i]
    ensures ParseNags(SerializeNags(nags)) == TrimmedEntries(nags)
  {
    var entries := TrimmedEntries(nags);
    TrimmedCommaFree(nags);
    ParseJoined(entries);
    assert SerializeNags(nags) == Join(entries, ",");
  }

  /** Reading back a comma-joined list of trimmed, non-empty, comma-free entries gives the list. */
  lemma ParseJoined(entries: seq<string>)
    requires forall i :: 0 <= i < |entries| ==> entries[i] != [] && Trim(entries[i]) == entries[i] && ',' !in entries[i]
    ensures ParseNags(Join(entries, ",")) == entries
  {
    if entries == [] {
      ParseEmpty();
    } else {
      SplitJoin(entries, ',');
      TrimmedEntriesFixed(entries);
    }
  }

  /** Empty stored text holds no NAGs. */
  lemma ParseEmpty()
    ensures ParseNags("") == []
  {
    assert Split("", ',') == [""];
    assert Trim("") == "";
  }

  /** Reading stored text and storing it again is stable: a second round trip changes nothing. */
  lemma ParseSerializeStable(raw: string)
    ensures SerializeNags(ParseNags(SerializeNags(ParseNags(raw)))) == SerializeNags(ParseNags(raw))
  {
    var parsed := ParseNags(raw);
    TrimmedEntriesFixed(parsed);
    ParseJoined(parsed);
  }
}
