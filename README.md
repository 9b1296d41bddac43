# RetroPress card board, modelled in Dafny

RetroPress is a one-page desk where typed messages are "printed" onto paper cards. The cards can be dragged around, are stacked by a z-index and persist in the browser's local storage. This project models the two stateful parts of the app and proves their properties:

- **The board** (`App.tsx`) keeps three pieces of state:
  - the list of cards, in insertion order;
  - a stacking counter `maxZIndex`, starting at 1;
  - a drag session, either idle or dragging one card id with the pointer-to-card offset taken at pick-up.

  Five handlers change this state: print, delete, mouse-down (bring to front and start the drag), mouse-move and mouse-up. Every change of the list is written through to the storage entry `retroCards`.
- **The printer panel** (`components/Printer.tsx`) holds the typed input, the selected paper variant and an `isProcessing` flag. It decides when a print request reaches the board. The PRINT path refuses input that trims to nothing. The "magic" path first awaits a text enhancer and prints whatever non-empty string comes back.

Files:
- `types.dfy` (module `Types`): positions, the four variants, the card record, and the drag session together with its three-field stored form.
- `jstext.dfy` (module `JsText`): `String.prototype.trim` over ECMAScript whitespace, and string truthiness.
- `board.dfy` (module `App`): the pure list operations the handlers use, with their properties; class `Board` with the handlers; the printer wired to the board; two scenario methods.
- `printer.dfy` (module `PrinterComponent`): class `Printer` with its handlers, the enhancer-result gate and the guard lemmas.

The environment comes in as parameters (`App.PrintEnv`):
- a fresh id standing in for `crypto.randomUUID()`, required not to be on the board;
- the window width and height;
- a draw of `Math.random()` in [0, 1);
- the formatted date and time strings.

Pointer positions are parameters of the mouse handlers. The enhancer's answer is a parameter of the magic print's completion (`Resolved(text)` or `Threw`). The storage entry is a field of the board holding `Absent`, `Unparsable` or `Saved(cards)`.

The magic print is two steps. The click raises `isProcessing`, captures the variant and hands the input to the enhancer. The completion runs when the awaited answer arrives. This way the flag is observable while the call is pending, and so is the disabled button. As in the source, the completion uses the variant of the click: the handler reads `selectedVariant` from the render in which it was clicked.

Four points where the code behaves differently from what its purpose suggests. The model follows the code in each:
- **The emptiness check lives in the printer, not in the board.** `handlePrint` in `App.tsx` accepts any text. The magic path does not trim, so whitespace-only text can reach the board (`PrinterComponent.MagicBypassesTrimGuard`). A card store rejecting blank text itself would be the expected design.
- **The counter is not saved.** After a reload `maxZIndex` restarts at 1. A reloaded card can then sit above every newly printed one (`App.ReloadLosesCounter`). The newest card is meant to be on top.
- **Nothing checks ids or shapes on load.** Loaded cards are not checked for distinct ids. `UniqueIds` is kept by every handler, but it is not re-established on load.
- **A malformed stored entry is overwritten.** It is replaced by the empty list as soon as the board mounts, because the save effect runs after the load.

## Model

| member | source | states |
|---|---|---|
| Types.VariantNamesRoundTrip | types.ts:12 | the variant is exactly one of the four names `standard`, `aged`, `blueprint`, `pink`; names and variants convert both ways |
| Types.ToRecord | types.ts:17-21 | the stored drag record has `isDragging` set exactly when `cardId` is present; idle is `{false, null, (0,0)}` |
| Types.DragRecordRoundTrip | types.ts:17-21 | the two-state session and the coherent three-field records are in one-to-one correspondence |
| JsText.Lead | components/Printer.tsx:15 | the index of the first non-whitespace character; everything before it is whitespace |
| JsText.Stop | components/Printer.tsx:15 | the end of the non-whitespace part; everything after it is whitespace |
| JsText.Trim | components/Printer.tsx:15 | the trimmed string neither starts nor ends with whitespace |
| JsText.TrimCutsOnlyWhitespace | components/Printer.tsx:15 | trimming is a slice of the input with only whitespace cut off on either side |
| JsText.BlankIffAllWhitespace | components/Printer.tsx:15 | `!input.trim()` holds exactly when the input is whitespace only, the empty string included |
| PrinterComponent.PrintDisabledIffGuardRejects | components/Printer.tsx:103 | the PRINT button is disabled exactly when the submit guard rejects, that is on whitespace-only input |
| PrinterComponent.MagicBypassesTrimGuard | components/Printer.tsx:20-28 | every non-empty whitespace-only answer of the enhancer, which the PRINT path refuses, is printed unchanged by the magic path with the click's variant |
| PrinterComponent.Printer.constructor | components/Printer.tsx:9-11 | empty input, not processing, variant `standard`; PRINT disabled, magic enabled |
| PrinterComponent.Printer.Edit | components/Printer.tsx:52-56 | the input becomes the typed text (at most 120 characters); nothing else changes |
| PrinterComponent.Printer.SelectVariant | components/Printer.tsx:69-72 | a variant click sets the variant and changes nothing else |
| PrinterComponent.Printer.Submit | components/Printer.tsx:13-18 | blank input: no print, input kept; otherwise exactly one request with the untrimmed input and current variant, then the input is cleared; the variant and flag are untouched |
| PrinterComponent.Printer.ClickMagic | components/Printer.tsx:20-24 | when enabled, sets `isProcessing` before the call and sends the input, even when it is empty; while processing the click does nothing |
| PrinterComponent.Printer.CompleteMagic | components/Printer.tsx:24-34 | prints and clears the input only on a non-empty result, keeps the input otherwise, and lowers `isProcessing` on every path, success, empty result or throw |
| App.SpawnPoint | App.tsx:42-44 | a 320-pixel-wide card placed there has its centre on the window's vertical midline, so the gaps to the left and right edges are equal; its top edge is 350 pixels above the bottom |
| App.Rotation | App.tsx:54 | the tilt lies in [-3, 3) degrees |
| App.NewCard | App.tsx:50-59 | the new card's tilt is in range and it is stacked above the counter |
| App.FindIndex | App.tsx:72 | the index of the first card with the id; none exactly when no card has it |
| App.Without | App.tsx:66 | the filter keeps exactly the cards whose id differs |
| App.WithoutKeepsOrder | App.tsx:66 | the remaining cards keep their original relative order |
| App.WithoutCounts | App.tsx:66 | every remaining card stays as often as it was there; those with the id are all gone |
| App.WithoutAbsent | App.tsx:66 | deleting an absent id changes nothing |
| App.WithoutIdempotent | App.tsx:66 | deleting twice equals deleting once |
| App.WithoutKeepsUnique | App.tsx:66 | deleting keeps ids distinct |
| App.Raised | App.tsx:78 | bring-to-front changes only the z-index of the cards with the id; every other field and card stays in place |
| App.Moved | App.tsx:96-100 | a move changes only the position of the cards with the id; every other field and card stays in place |
| App.UpdatesKeepIds | App.tsx:78 | bring-to-front and move keep the set of ids and keep ids distinct |
| App.MoveAfterDelete | App.tsx:96-100 | once the dragged card is deleted, a move leaves the board unchanged |
| App.PrintedOnTop | App.tsx:55-62 | with every z-index at most the counter, the printed card is strictly above all others and the bound still holds |
| App.RaisedOnTop | App.tsx:76-78 | with the same bound, the picked-up card is strictly above every other card and the bound still holds |
| App.DragFidelity | App.tsx:84-94 | a card at P, picked up at Q and moved to Q', sits at P + (Q' - Q) |
| App.ReloadLosesCounter | App.tsx:18-31 | after loading a card stacked at 5 the bound fails, and the next printed card is stacked below it |
| App.Board.constructor | App.tsx:10-36 | after mount the board holds the loaded cards, the counter is 1, the session is idle and the storage entry holds the list |
| App.Board.Print | App.tsx:38-63 | appends exactly one card at the end at the spawn point with z-index old counter + 1; existing cards are unchanged and in order; the counter rises by one; the bound and distinct ids are kept; storage mirrors the list |
| App.Board.Delete | App.tsx:65-67 | the list becomes the filter by id; an absent id changes nothing; the counter and session are untouched; storage mirrors the list |
| App.Board.MouseDown | App.tsx:71-88 | an absent id changes nothing; otherwise counter + 1, only that card's z-index becomes the new maximum, order kept, and dragging starts with offset pointer - position; the bound is kept |
| App.Board.MouseMove | App.tsx:90-101 | while dragging, the dragged card's position becomes pointer - offset and nothing else changes; idle, an empty id or a deleted card leave the board unchanged |
| App.Board.MouseUp | App.tsx:103-120 | the session is idle afterwards, whatever it was before; cards and counter are unchanged |
| App.PrintButton | App.tsx:166 | PRINT wired to the board: a card is appended and the counter rises by one exactly when the input is not blank, and the input is cleared; blank input leaves board and input as they were; the drag session, variant and processing state are untouched |
| App.MagicArrives | components/Printer.tsx:24-33 | the enhancer's answer puts a card with that text and the click's variant on the board, raises the counter by one and clears the input exactly when it is non-empty; otherwise board and input are kept; the flag is lowered either way; the drag session and selected variant are untouched |

## Left out

- Floating point: JavaScript numbers are modelled as exact reals and integers. `pointer - (pointer - position)` is exact here, while in doubles it may round. z-indices are unbounded integers, and a JavaScript number counts exactly only up to 2^53.
- `crypto.randomUUID()`, `Math.random()` and `Date` formatting are taken as parameters. App.Board.Print requires the fresh id not to be on the board, which stands in for the uniqueness of random UUIDs.
- JSON encoding and `localStorage`: the storage entry is a field holding the saved list, not a string. A string that parses to something other than a list of cards is not modelled. `setItem` failures are not modelled either (a full store would throw from the save effect).
- The `containerRef` null guard in `handlePrint` is a rendering detail. The model assumes the container is mounted.
- React scheduling: each handler is one atomic step, and the mount is the load followed by the save. Stale closures across the enhancer's `await` are not modelled, apart from the captured variant. App.MagicArrives prints with the board's current counter. The source uses the `maxZIndex` of the render in which the magic button was clicked, so a card picked up during the wait can end up sharing its z-index with the new card.
- Listener attachment is modelled as the `Listening` predicate and a guard in the move and up handlers, not as add/remove calls.
- The enhancer services (`services/geminiService.ts`, `services/openaiService.ts`) make network and SDK calls and are not part of this model. Their answer is a parameter. Their fallback policy (the input, or a fixed phrase when the input is empty) is not modelled.
- `components/Card.tsx` is presentation and is not part of this model. Neither are the label of the magic button nor any styling.
- Strings are sequences of Unicode code points, not UTF-16 code units. The 120-character limit of the textarea is a precondition of PrinterComponent.Printer.Edit.
