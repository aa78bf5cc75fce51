/**
 * The engine's store record as the export code sees it: four named sub-states
 * that are exported, and the editor state, which stands for everything else the
 * store holds and which is never exported.
 */
module EngineStore {
  import opened Json

  datatype Store = Store(
    canvasState: Json,
    tableState: Json,
    memoState: Json,
    relationshipState: Json,
    editorState: Json)
}
