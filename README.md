# vuerd diagram editor: placement helpers, snapshot/export serialisation, table command generators

A Dafny model of three self-contained parts of the vuerd entity-relationship editor.

- **Table placement and selection helpers** (`src/store/table/tableHelper.ts`), in `table_helper.dfy`.
  These are imperative methods with loops.
  - `ZIndexNext` gives the stacking order for a new table or memo.
  - `PointNext` searches the canvas for a free coordinate. It checks the base point, then steps diagonally by `SIZE_START_ADD`. Its termination argument is proved: each step passes the corner of at least one table or memo and never returns to it, so there are at most as many steps as entities.
  - `GetSelect` finds the first and last selected focus column.
- **Snapshot and export serialisation** (`packages/vuerd/src/core/file.ts`), in `file.dfy`, with the JavaScript builtins it uses in `js_string.dfy`.
  - JSON values are a recursive datatype (`json.dfy`). The engine store is a record of JSON sub-states (`engine_store.dfy`).
  - `createJsonFormat` renames the store's fields. `createJsonStringify` and `createStoreCopy` remove every `_`-prefixed property at every depth. This is stated over property paths.
  - `createSnapshot` is a method of an `EditorContext` class whose `snapshots` sequence it extends.
  - Also modelled: the export file-name rule (with `String.prototype.trim` and the decimal time stamp written out), the XML export guard, the Liquibase import guard, and the root choice of `loadLiquibaseChangelog`.
- **Table command generators** (`src/engine/command/table.cmd.helper.gen.ts`), in `table_cmd_gen.dfy`.
  - A generator is a resumable value: each `Resume` yields one command or finishes.
  - `AddTableCommands` and `SelectTableCommands` drain a generator into the ordered command sequence it dispatches.

Coordinates, stacking orders and time stamps are integers. The browser clock is a parameter: `time`, in milliseconds since the epoch.

## Model

| member | source | states |
|---|---|---|
| TableHelper.ZIndexNext | src/store/table/tableHelper.ts:7-20 | The result is greater than every table's and every memo's zIndex and at least 2. It equals max(1, largest zIndex) + 1 exactly, because the result minus one is 1 or some entity's zIndex. It is 2 exactly when no zIndex exceeds 1. |
| TableHelper.PointNext | src/store/table/tableHelper.ts:22-48 | With any non-zero SIZE_START_ADD the search terminates. It returns a point where no table or memo has its (top, left). The point is base + k·ADD on both axes, where base is the start offset plus the scroll position and k ≤ tables + memos. Every earlier candidate is occupied, so the result is the first free one. A free base point is returned unchanged. Tables, memos and store are only read. |
| TableHelper.AheadPassed | src/store/table/tableHelper.ts:28-46 | Termination measure of the search: moving the point's top past an entity's corner, in the direction of the step, strictly lowers the number of corners still ahead of it, for good. |
| TableHelper.SearchResult | src/store/table/tableHelper.ts:27-47 | The state the loop ends in (no entity on the point, every skipped candidate occupied, k ≤ n) gives PointNext's three promises. |
| TableHelper.GetSelect | src/store/table/tableHelper.ts:50-67 | The result is (-1, -1) exactly when no column is selected; min is -1 exactly when max is. Otherwise 0 ≤ min ≤ max < length, both indices are selected, and every selected index lies in [min, max], so min and max are the first and last selected. |
| Json.GetDistinct | packages/vuerd/src/core/file.ts:25-30 | In an object with distinct keys, as every JavaScript object has, each key reads as the value of its property. |
| File.CreateJsonFormat | packages/vuerd/src/core/file.ts:20-30 | The exported object has exactly four properties, keyed canvas, table, memo, relationship, in that order. The editor state is not exported. |
| File.FormatReads | packages/vuerd/src/core/file.ts:25-30 | In the exported object, canvas reads as canvasState, table as tableState, memo as memoState and relationship as relationshipState. |
| File.StripPropsGet | packages/vuerd/src/core/file.ts:47-52 | One level of the replacer: a private key reads as absent in the stripped object. Any other key reads as the stripped value of what it read before. |
| File.StripLookup | packages/vuerd/src/core/file.ts:47-52 | At every depth: a path through the stripped value finds nothing once it uses a `_` key. Otherwise it finds exactly the stripped value of what the same path finds in the original. |
| File.StripNoPrivateKeys | packages/vuerd/src/core/file.ts:50 | No object anywhere in the stripped value has a key starting with `_`. |
| File.StripClean | packages/vuerd/src/core/file.ts:50 | A value with no `_` key anywhere passes the replacer unchanged. |
| File.StripIdempotent | packages/vuerd/src/core/file.ts:50 | Stripping an already stripped value changes nothing. |
| File.StripPropsKeys | packages/vuerd/src/core/file.ts:50 | Where no key is private, stripping keeps every property in its place, with its key and its stripped value. |
| File.CreateJsonStringify | packages/vuerd/src/core/file.ts:47-52 | The stringified store is an object with no `_` key anywhere. |
| File.StringifyReads | packages/vuerd/src/core/file.ts:47-52 | In the stringified store a `_` key reads as absent, and any other key reads as the stripped value it has in the exported format. |
| File.CreateStoreCopy | packages/vuerd/src/core/file.ts:43-45 | The copy has no `_` key anywhere. |
| File.StoreCopyOfCleanStore | packages/vuerd/src/core/file.ts:43-52 | When the exported format has no `_` key anywhere, the copy equals it. |
| File.StoreCopyLookup | packages/vuerd/src/core/file.ts:43-52 | The copy agrees with the exported format along every path that uses no `_` key, and has nothing along any other path. |
| File.EditorContext.CreateSnapshot | packages/vuerd/src/core/file.ts:32-41 | The snapshot list grows by exactly one and earlier entries are unchanged. The new last entry is (createStoreCopy(store), metadata as passed, possibly absent). The store is unchanged. An all-exported snapshot list stays all-exported. |
| File.AppendExported | packages/vuerd/src/core/file.ts:36-39 | Appending a snapshot whose data has no `_` key keeps a list of such snapshots free of `_` keys. |
| File.SnapshotTwice | packages/vuerd/src/core/file.ts:36-39 | Two snapshots of an unchanged store are both kept and are equal: there is no de-duplication. |
| File.ExportFileName | packages/vuerd/src/core/file.ts:58-60 | The file name ends with the format's extension, and the time stamp can be read back from it. |
| File.TimestampReadBack | packages/vuerd/src/core/file.ts:59-60 | Whatever the stem, the time stamp read back from `<stem>-<time><ext>` is the time stamp written. |
| File.BlankNameIsUnnamed | packages/vuerd/src/core/file.ts:58-59 | A name that trims to the empty string gives `unnamed-<time><ext>`. |
| File.NamedFileKeepsName | packages/vuerd/src/core/file.ts:58-60 | Any other present name gives `<name>-<time><ext>`, with the name untrimmed. |
| File.AbsentNameIsUndefined | packages/vuerd/src/core/file.ts:58-60 | An absent name is not blank, since `name?.trim()` is undefined. It renders as `undefined-<time><ext>`. |
| JsString.TrimEmptyIffBlank | packages/vuerd/src/core/file.ts:58 | `name.trim() === ''` holds exactly when every character of the name is JavaScript white space or a line terminator. |
| JsString.DecimalRoundTrip | packages/vuerd/src/core/file.ts:59 | The decimal rendering of the time stamp denotes the time stamp. |
| JsString.TrailingDigitsAfter | packages/vuerd/src/core/file.ts:59-60 | The digits after the last `-` of a file name are exactly the rendered time stamp. |
| File.ExportJson | packages/vuerd/src/core/file.ts:65-71 | The JSON text is exported as an application/json Blob, under the name rule with `.vuerd.json`. The time stamp is recoverable from the name. |
| File.ExportSqlDdl | packages/vuerd/src/core/file.ts:73-79 | The DDL text is exported as an untyped Blob, under the name rule with `.sql`. The time stamp is recoverable from the name. |
| File.ExportXml | packages/vuerd/src/core/file.ts:81-89 | Nothing is exported exactly when the XML text is empty. Otherwise the text is exported under the name rule with `.xml`. |
| File.ImportLiquibaseGuard | packages/vuerd/src/core/file.ts:177-186 | The import proceeds exactly when there is no latest snapshot, or the diff is empty, or the user confirms. The user is asked exactly when a snapshot exists and the diff is non-empty. Only a refusal after being asked stops the import. |
| File.ChangelogRoot | packages/vuerd/src/core/file.ts:230-241 | The root is the first file exactly when the type is 'vscode' and the first file's path is 'changelog.xml'. Otherwise there is no root. Type 'vscode' with no files fails, as `files[0].path` throws. |
| TableCommandGen.AddTableCommands | src/engine/command/table.cmd.helper.gen.ts:5-9 | Driving addTable$ yields exactly three commands, in the order selectEndTable(), selectEndMemo(), addTable(store). |
| TableCommandGen.SelectTableCommands | src/engine/command/table.cmd.helper.gen.ts:11-16 | Driving selectTable$ yields selectTable(store, ctrlKey, tableId) first, with the same arguments. That is one command with ctrlKey, and two without, the second being selectEndMemo(). |
| TableCommandGen.TakeIsPrefix | src/engine/command/table.cmd.helper.gen.ts:5-16 | Stopping a generator after any number of resumptions has seen a prefix of the commands draining it yields. The generators only describe commands and change no state. |

## Left out

- PointNext: requires SIZE_START_ADD to be non-zero. The constant lives in a layout module that is not part of this model. With a step of 0 the search loops forever when the base point is occupied; with any other step, positive or negative, it ends after at most one step per table or memo.
- Table and Memo carry only their `ui` geometry. Their other fields are never read by these helpers.
- CreateJsonStringify: modelled as the JSON value its text denotes. Text rendering and the `space` indentation argument are left out. `createStoreCopy`'s `JSON.parse(JSON.stringify(…))` is taken as the identity on JSON values.
- JSON numbers are integers. An object's properties are taken in the order they are listed; JavaScript's rule that integer-like keys enumerate first, in ascending order, is not modelled. Floating-point values, `undefined`, functions and `toJSON` hooks are not modelled.
- Store: the engine store type is not part of this model. Its four exported sub-states are JSON values, and one `editorState` field stands for everything else it holds.
- Snapshot metadata is an optional JSON value, because the snapshot metadata type is not part of this model. The unused `getLatestSnapshot` reference at file.ts:40 has no effect and is not modelled.
- exportPNG: the image rendering with domToImage is browser I/O. Only its file-name rule is modelled, by ExportFileName with the `.png` extension.
- executeExport, executeExportBuiltin and setExportFileCallback: the module-level callback switch and the download link are browser I/O. The model stops at the Blob content and file name handed to them.
- importJSON, importSQLDDL, the file handler of importLiquibase, and loadFileSync are file pickers, FileReader callbacks and `alert`, all browser I/O.
- ImportLiquibaseGuard: getLatestSnapshot, calculateLatestDiff and `window.confirm` are inputs. The latest snapshot is optional, the diff length is a number and the user's answer is a boolean. Their own behaviour is not modelled.
- ChangelogRoot: LiquibaseParser, which receives the root, is not part of this model.
- The command constructors selectEndTable, selectEndMemo, addTable and selectTable are not part of this model. Commands record only which constructor was called and with which arguments. The position and stacking order that addTable computes are not modelled there. `AddTable(store)` records the store value passed when the generator is created; in the source, `addTable(store)` runs only at the third resumption and reads the store as it is then, possibly after the first two commands were dispatched, which an abstract constructor cannot observe.
- Store dispatch, its atomicity and the diff algorithm are not in these files and are not modelled.
- The browser clock `new Date().getTime()` is the parameter `time`, a non-negative integer.
