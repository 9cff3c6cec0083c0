# PharmaStudio AI — a verified model of the studio's front-end logic

PharmaStudio AI is a browser front end. A pharmacist pastes a list of
medicine names, one per line, and picks a visual style. The studio then asks
a generative-image service for one product picture per name and shows the
results as cards in a gallery, with a retry button on failed cards and a
download link on finished ones. A chat panel on the side forwards questions
to a generative-text service.

This project models the local logic around those two services in Dafny and
proves its properties. Each call to a service is a parameter that either
succeeds with a string or fails.

- `Text` (`text.dfy`) models the JavaScript string built-ins the logic uses:
  - `trim`, with the exact ECMAScript white-space and line-terminator set;
  - `split` on one character, with its inverse `Join`;
  - `replace(/\s+/g, '-')`;
  - `toLowerCase`.
- `Types` (`types.dfy`) mirrors `types.ts`: the three image styles, the asset
  record with its four statuses, and the chat message.
- `Registry` (`registry.dfy`) holds the pure transforms the studio applies to
  its list of assets:
  - reading a batch out of the input text;
  - prepending it;
  - the `prev.map(a => a.id === id ? {...a, …} : a)` point updates;
  - the lookup used by retry;
  - the settlement of a whole batch in any order.
- `Studio` (`studio.dfy`) is the screen's state as a class `App` with the
  fields `inputText`, `selectedStyle`, `assets` and `isGenerating`. Its
  handlers are methods. Each `async` handler is split at its `await` into the
  synchronous steps before and after it, and the handler runs those steps in
  order.
- `Chat` (`chat.dfy`) models the chat panel as a class `ChatWidget` with
  `input`, `messages` and `isTyping`. `handleSend` is split at its `await`
  into `SubmitMessage` and `ReceiveReply`. The history sent to the service is
  a projection of the transcript.
- `AssetCard` (`asset_card.dfy`) models what one card shows as a value:
  - the spinner, the error panel with its retry target, and the picture;
  - the badge and the status label;
  - the download link and its file name.

## Model

| member | source | states |
|---|---|---|
| Text.TrimSlice | App.tsx:15 | `trim` removes a blank prefix and a blank suffix and keeps the middle part, which neither starts nor ends with white space |
| Text.TrimUnique | App.tsx:23 | trimming is determined by that description: any blank text around a string without outer white space is removed exactly |
| Text.TrimEmptyIffBlank | App.tsx:15 | the trimmed input is empty exactly when every character is white space |
| Text.TrimIdempotent | App.tsx:18-23 | trimming an already trimmed line changes nothing |
| Text.FirstIndexOf | components/AssetCard.tsx:44 | the index found holds the character and no earlier index does |
| Text.Split | App.tsx:18 | `split` on one character gives at least one piece, and no piece contains the separator |
| Text.JoinSplit | App.tsx:18 | joining the pieces of a split with the separator gives the string back, so the split loses nothing |
| Text.SplitJoin | App.tsx:18 | pieces without the separator are recovered by splitting their join |
| Text.SplitAfterFirst | components/AssetCard.tsx:44 | a string that starts with a separator-free piece and then the separator splits into that piece followed by the split of the rest |
| Text.BlankIffPiecesBlank | App.tsx:15-18 | with a white-space separator, a text is blank exactly when all of its pieces are |
| Text.FirstPiece | components/AssetCard.tsx:44 | `split(sep)[0]` is the longest prefix without the separator |
| Text.DashWhitespaceRuns | components/AssetCard.tsx:68 | `replace(/\s+/g, '-')` gives a string without white space that is no longer than its input |
| Text.DashRunsIdentity | components/AssetCard.tsx:68 | a string without white space is left unchanged |
| Text.DashRunsOfRun | components/AssetCard.tsx:68 | a whole non-empty run of white space becomes exactly one dash |
| Text.DashRunsConcat | components/AssetCard.tsx:68 | the replacement distributes over a concatenation that does not cut a run in two, so every maximal run becomes one dash |
| Text.LowerChar | components/AssetCard.tsx:68 | lower-casing one character keeps white space, gives no upper-case letter, and changes only upper-case letters |
| Text.LowerProperties | components/AssetCard.tsx:68 | lower-casing keeps the length and the absence of white space, and is idempotent |
| Registry.KeepNonBlank | App.tsx:18 | the filter keeps only lines of the input whose trimmed form is non-empty |
| Registry.KeepNonBlankConcat | App.tsx:18 | the filter keeps the lines' top-to-bottom order |
| Registry.KeepNonBlankComplete | App.tsx:18 | every input line whose trimmed form is non-empty survives the filter, so no medicine name is lost |
| Registry.KeepNonBlankEmpty | App.tsx:18 | nothing survives the filter exactly when every line is blank |
| Registry.MedicineNamesEmptyIffBlank | App.tsx:15-18 | the early return on a blank input and the line filter agree: some line survives exactly when the trimmed input is non-empty |
| Registry.NewBatch | App.tsx:18-26 | the new assets correspond one to one, in order, to the surviving lines. Each has its id, the trimmed line as name, status loading, no image and the selected style, and each is well formed |
| Registry.PointUpdate | App.tsx:37-47 | a point update keeps the length, the order, and every entry's id, name and style |
| Registry.PointUpdateAt | App.tsx:37-47 | entries with the id get the change (completed with the image, error, or loading, keeping any earlier image) and every other entry is unchanged |
| Registry.PointUpdateEverywhere | App.tsx:58 | all entries with the id receive the change |
| Registry.PointUpdateAbsent | App.tsx:62-72 | an update for an id that is not in the registry leaves it identical |
| Registry.PointUpdatesCommute | App.tsx:37-47 | updates to two different ids commute |
| Registry.PointUpdateIdempotent | App.tsx:37-47 | applying the same update twice equals applying it once |
| Registry.LoadingThenSettle | App.tsx:58-72 | marking an id loading and then settling it equals settling it directly |
| Registry.PointUpdateWellFormed | App.tsx:37-47 | point updates keep every asset well formed |
| Registry.FindById | App.tsx:55-56 | the lookup finds nothing exactly when no entry has the id, and otherwise returns the first entry that has it |
| Registry.SettleAll | App.tsx:34-49 | settling a sequence of calls keeps the registry's length and every entry's id |
| Registry.SettleAllAt | App.tsx:34-49 | each entry ends up as the changes for its own id, applied in arrival order; no settlement touches another id |
| Registry.ChangesForNone | App.tsx:34-49 | an id with no settlement receives no change |
| Registry.ChangesForOne | App.tsx:34-49 | an id with exactly one settlement receives exactly that change |
| Registry.BatchSettled | App.tsx:28-49 | for a batch with fresh, distinct ids, once every call has settled in any order, each new asset carries its own call's result and the older entries are exactly as they were |
| Registry.BatchSettledAt | App.tsx:28-49 | entry by entry, the settled registry equals the settled batch followed by the old entries |
| Registry.NewEntrySettled | App.tsx:34-41 | with distinct ids, each new asset receives exactly its own call's result, whatever the settlement order |
| Registry.OldEntryUntouched | App.tsx:37-47 | an older entry whose id no call of the batch carries is left exactly as it was |
| Registry.SettleOrderIrrelevant | App.tsx:34-49 | for such a batch the final registry does not depend on the order in which the calls settle |
| Studio.App.constructor | App.tsx:9-12 | the screen starts with an empty input, the modern style, no assets and no batch running |
| Studio.App.SetInputText | App.tsx:109 | the input box holds the typed text |
| Studio.App.SelectStyle | App.tsx:126 | the chosen style becomes the selected one |
| Studio.App.GenerateEnabled | App.tsx:143 | the button is enabled exactly when some input line would survive the filter and no batch is running |
| Studio.App.StartGenerate | App.tsx:15-30 | a blank input changes nothing and starts nothing. Otherwise the non-empty batch read from the input is prepended to the unchanged older entries, the flag is raised and the input cleared |
| Studio.App.SettleGeneration | App.tsx:37-47 | one settled call applies its point update to the registry |
| Studio.App.FinishGenerate | App.tsx:51 | the flag is lowered after the batch |
| Studio.App.SettleBatch | App.tsx:34-49 | the loop over settlements yields the registry given by SettleAll, in arrival order |
| Studio.App.HandleGenerate | App.tsx:14-52 | a blank input changes nothing. Otherwise the registry ends as the batch prepended and then settled, and the flag is down. With fresh, distinct ids it ends as the settled batch followed by the old registry |
| Studio.App.StartRetry | App.tsx:55-58 | an unknown id changes nothing; a known one has its entries marked loading, and the found asset is returned |
| Studio.App.RetryAsset | App.tsx:54-74 | an unknown id changes nothing and issues no call; otherwise the registry ends as the single point update of that call's outcome |
| Studio.App.ClearGallery | App.tsx:174 | clearing leaves an empty registry whatever it held, so a second clear changes nothing |
| Chat.History | components/ChatWidget.tsx:44-47 | the history has the transcript's length and order, with each entry's role and text carried over |
| Chat.HistoryConcat | components/ChatWidget.tsx:44-47 | the history of a concatenation is the concatenation of the histories |
| Chat.ReplyText | components/ChatWidget.tsx:49-65 | a reply's text is appended as it is; a failure appends the fixed apology |
| Chat.ReplyIgnoresReason | components/ChatWidget.tsx:58-65 | the failure's reason never reaches the transcript |
| Chat.ChatWidget.constructor | components/ChatWidget.tsx:8-17 | the transcript starts as the single welcome message from the assistant, with an empty input and no reply pending |
| Chat.ChatWidget.SetInput | components/ChatWidget.tsx:132 | the input box holds the typed text |
| Chat.ChatWidget.SubmitMessage | components/ChatWidget.tsx:29-47 | a blank input or a pending reply changes nothing and sends nothing. Otherwise exactly one user message with the untrimmed input is appended, the input is cleared, the flag is raised, and the request carries the history of the transcript before that message |
| Chat.ChatWidget.ReceiveReply | components/ChatWidget.tsx:49-68 | exactly one assistant message with the reply or the apology is appended and the flag is lowered; the transcript keeps alternating |
| Chat.ChatWidget.HandleSend | components/ChatWidget.tsx:28-69 | a send is a no-op when guarded. Otherwise it appends exactly the user message and then one assistant message after the unchanged earlier transcript, and leaves the panel not typing |
| AssetCard.StatusLabelInjective | components/AssetCard.tsx:60-62 | the four statuses have four different labels |
| AssetCard.Badge | components/AssetCard.tsx:44 | the badge is the prefix of the style's name up to its first slash, or the whole name when there is no slash |
| AssetCard.BadgeBeforeSlash | components/AssetCard.tsx:44 | a name whose first slash is at a given index has the part before that index as its first piece |
| AssetCard.BadgeRustic | components/AssetCard.tsx:44 | the rustic preset's badge is "Rústico" |
| AssetCard.BadgeModern | components/AssetCard.tsx:44 | the modern preset's badge is "Claro" |
| AssetCard.BadgeSocial | components/AssetCard.tsx:44 | the social-media preset's badge is its whole name |
| AssetCard.DownloadName | components/AssetCard.tsx:68 | the file name is `pharma-asset-`, a part with no white space and no upper-case letter, then `.png` |
| AssetCard.DownloadNameOneWord | components/AssetCard.tsx:68 | a name without white space is only lower-cased |
| AssetCard.LowerConcat | components/AssetCard.tsx:68 | lower-casing distributes over concatenation |
| AssetCard.DashRunsTwoWords | components/AssetCard.tsx:68 | two words around any run of white space keep their characters, and the run becomes one dash |
| AssetCard.DownloadNameTwoWords | components/AssetCard.tsx:68 | two words separated by any run of white space are joined by exactly one dash |
| AssetCard.Render | components/AssetCard.tsx:14-74 | the spinner shows exactly when loading. The retry button shows exactly on failed assets and reports their id. The picture shows exactly when completed with a non-empty image. At most one of these three shows. The badge and label come from the style and status. The download link shows exactly when completed |
| AssetCard.EmptyImageStillDownloadable | components/AssetCard.tsx:34-68 | a completed asset whose image is the empty string shows no picture but still offers its download |

## Left out

- The generative service (`services/geminiService.ts`) is not part of this model. Each call is a parameter that succeeds with a string or fails. This leaves out the prompts per style, the scan of the response for image data, the text fallback inside the chat call, and logging.
- Scheduling of `Promise.allSettled` and of the other handlers is not modelled. A batch's settlements are any permutation of its calls, applied one after another. A retry, a clear or a second batch that runs between two settlements is covered only by the point-update lemmas (commutation, absent ids), not by a method that interleaves them.
- Studio.App.HandleGenerate: a second batch started while one is running is not modelled. The first batch to finish lowers the flag for both. The handler checks no flag, and the model states only the sequential run.
- Ids come from `Math.random` and `Date.now` in the source and are parameters here. The code does not guarantee that they are unique, so freshness and distinctness appear only as lemma preconditions (BatchSettled, SettleOrderIrrelevant, HandleGenerate's last ensures).
- Message timestamps (`new Date()`) are not modelled.
- React's stale closures are not modelled. `retryAsset` looks the id up in the render-time `assets`, and `handleSend` projects the render-time `messages`. Both are modelled as the state at the moment the handler runs.
- Scrolling, the open/closed state of the chat panel, refs, markup, CSS classes and icons are not modelled. The status pill's colour follows the same four-way case split as its label.
- Text.LowerChar: only ASCII and Latin-1 upper-case letters are lowered, which covers Portuguese names. Other scripts' case mappings, and mappings that change length, are not modelled.
- Strings are sequences of Unicode scalar values, not UTF-16 code units.

## Notes on the code

- `{...a, status: 'error'}` and `{...a, status: 'loading'}` keep an earlier `imageUrl` (App.tsx:45, 58, 70), and `Registry.Apply` does the same: a failed or retried asset still carries the image of an earlier success.
- Ids come from `Math.random` with no uniqueness check (App.tsx:22), so uniqueness appears only as a lemma hypothesis (`DistinctIds`, `FreshIds`).
