# wiki-plugin-frame, modelled in Dafny

The frame plugin for a federated wiki embeds a sandboxed iframe in a wiki page. The plugin and the page inside the frame then talk through `{wiki: {...}}` messages. This project models the plugin's core and proves what it promises:

- **Frame descriptor** (`client/frame.js`).
  - `validateDomain` checks the frame source against the domain pattern. Modules `Domain` and `Descriptor`.
  - `parse` splits the authoring text into source, caption and `HEIGHT` directive. Module `Descriptor`.
  - `expand` escapes the caption and rewrites `*x*` into italics. Module `Caption`.
- **Host side of the protocol** (`client/frame.js`).
  - The advertisement sent to each frame, and `frameListener`, which routes an inbound message to a host action. Module `Listener`.
  - `showImporter`, which stamps a default journal onto imported pages and builds the importer page. Module `Importer`.
- **Frame side of the protocol** (`client/wiki-messenger.js`).
  - The `WikiMessenger` class: it accepts the advertised identifiers and wraps every request in an envelope. Module `Messenger`.
- **Both sides together.** Module `Protocol` proves that a request posted by a frame reaches the host with that frame's own page key and frame id. The host then acts on the page and the frame it came from.

Support modules:

- `Wrappers` holds `Option`.
- `Text` holds one-character `split`/`join` and decimal text.
- `Json` models the JavaScript values that travel in messages:
  - an absent key stands for `undefined`;
  - truthiness follows the language;
  - object spread is the right-biased map union;
  - template-literal text is `ToText`.

Regular expressions are modelled as hand-written recognisers.

- `Domain.ValidateDomain` scans the URL. `Domain.UrlMatch` is a grammar built in the pattern's own shape. The two are proved to agree on every URL and every hostname.
- `Caption.Emphasize` performs the global lazy rewrite of `\*(.+?)\*`. `Caption.Restore` is its inverse on text without `<`, which escaped text is.

Foreign calls are returned as values instead of being made. `postMessage` becomes the message that would be sent. `wiki.showResult`, `wiki.doInternalLink`, `showImporter`, `resize` and `console.error` become an `Effect`. Ambient inputs become parameters: `event.shiftKey`, `window.parent !== window` and `new Date()`.

## Model

The source functions themselves are modelled by `Caption.Expand` (`expand`, client/frame.js:4-13), `Caption.Escape` (the escaping chain, lines 8-10), `Caption.Emphasize` (the emphasis replace, line 11) and `Listener.Advertisement` (`advertiseMessages`, lines 47-60); the rows below name the members whose contracts state their properties.

| member | source | states |
|---|---|---|
| Domain.ValidateDomain | client/frame.js:15-26 | the result keeps `src` verbatim and carries exactly one of hostname and error; the error text is the fixed message |
| Domain.ValidateDomainMatches | client/frame.js:16-21 | hostname `h` is reported if and only if the pattern matches the whole URL prefix with group 1 equal to `h` (optional `http:`/`https:`, `//`, hyphenated alphanumeric labels each ending in a dot, a TLD of two or more letters, an optional port of two or more digits, then `/` or the end, any letter case) |
| Domain.MatchFromValidate | client/frame.js:16-21 | a reported hostname is group 1 of a match of the pattern |
| Domain.ValidateFromMatch | client/frame.js:16-21 | every match of the pattern is reported, with group 1 as hostname |
| Domain.ShapeFromHost | client/frame.js:16 | a host accepted by the recogniser decomposes into labels, TLD and port as the pattern's group 1 does |
| Domain.HostFromShape | client/frame.js:16 | a host in the pattern's shape is accepted by the recogniser and holds no `/`, so the match cannot extend past the first slash |
| Domain.SchemeLengthOf | client/frame.js:16 | after a scheme of the pattern (`//`, `http://`, `https://` in any case), the recogniser measures exactly that scheme |
| Descriptor.WordRun | client/frame.js:31 | the greedy `\w+` run: a prefix made of word characters that cannot be extended |
| Descriptor.HeightToken | client/frame.js:31 | a directive line's captured word is non-empty |
| Descriptor.Survivors | client/frame.js:32 | the kept lines are exactly the lines that are not `HEIGHT <word>` directives, all of them removed, and no line is kept more often than it occurs (with `SurvivorsAppend`, each plain line is kept once, in order) |
| Descriptor.SurvivorsAppend | client/frame.js:32 | the filter keeps order: it distributes over concatenation |
| Descriptor.FirstHeight | client/frame.js:33-40 | no height if and only if no line is a directive; otherwise the word of the first directive line, all earlier lines being plain |
| Descriptor.FirstHeightAppend | client/frame.js:34-40 | only the first directive counts: later directives are ignored |
| Descriptor.Parsed | client/frame.js:28-45 | exactly one of hostname and error, the fixed error text, sandbox `allow-scripts`, and `src` the first line verbatim (newline-free prefix of the text, followed by a newline or the end) |
| Descriptor.Parse | client/frame.js:28-45 | the `for ... break` scan computes the descriptor `Parsed` describes |
| Descriptor.ParsedHostname | client/frame.js:29-30 | the descriptor's hostname is `h` if and only if the first line matches the domain pattern with group 1 `h` |
| Descriptor.CaptionLines | client/frame.js:32 | splitting the caption at newlines gives back exactly the surviving lines in order, or the caption is empty when none survive; no caption line is a directive |
| Descriptor.SingleLine | client/frame.js:29-43 | a one-line text is all source: empty caption, no height |
| Caption.CloseFrom | client/frame.js:11 | the scan finds the first star after the opening one with no line terminator before it, or shows that none exists |
| Caption.Closing | client/frame.js:11 | the closing star of a lazy `\*(.+?)\*` match opened at the front: content non-empty, free of line terminators, and free of stars after its first character; none exactly when every later star has a line terminator before it |
| Caption.EscapeCharwise | client/frame.js:8-10 | the three chained replacements act character by character, so the entities they introduce are not escaped again |
| Caption.UnescapeEscape | client/frame.js:8-10 | decoding the three entities recovers the input: escaping loses nothing |
| Caption.EscapeNoAngle | client/frame.js:8-10 | no `<` or `>` survives escaping raw |
| Caption.EscapePlain | client/frame.js:8-10 | text without `&`, `<`, `>` is not changed by escaping |
| Caption.ShortestMatch | client/frame.js:11 | a leading `*x*` with non-empty `x` free of line terminators and inner stars becomes `<i>x</i>`, and the rewrite resumes after it |
| Caption.UnclosedStar | client/frame.js:11 | a star without a closing star on its line stays literal |
| Caption.EmphasizePlain | client/frame.js:11 | text without stars is not changed by the rewrite |
| Caption.EmphasizeAfterPlain | client/frame.js:11 | star-free text before the first star is copied and the rewrite continues after it; with `ShortestMatch` and `UnclosedStar` this fixes the rewrite of every input, pairs anywhere in the text included |
| Caption.RestoreEmphasize | client/frame.js:11 | on text without `<`, turning every `<i>`/`</i>` back into a star recovers the input, so the rewrite only replaces star pairs |
| Caption.ExpandRoundTrip | client/frame.js:4-13 | restoring the tags of the expansion gives the escaped caption, which has no raw `<`/`>` from the input and unescapes to the caption |
| Caption.EscapeAppend | client/frame.js:8-10 | escaping distributes over concatenation |
| Caption.EscapeStarred | client/frame.js:8-11 | escaping leaves stars and plain text alone, so a starred word after plain text reaches the emphasis rewrite intact |
| Caption.ExpandStarred | client/frame.js:4-13 | a starred word after plain text is italicised in place (`see *this*` renders as `see <i>this</i>`), and the rest is expanded in turn |
| Caption.ExpandPlain | client/frame.js:4-13 | a caption without `&`, `<`, `>`, `*` is rendered unchanged |
| Importer.Backfilled | client/frame.js:131-133 | an object page whose `journal` is undefined or null gains exactly the one-entry journal `[{date}]` with its other fields kept; every other page is untouched |
| Importer.BackfillIdempotent | client/frame.js:130-134 | stamping a page twice is stamping it once, so an object reachable under two keys is stamped once |
| Importer.ImportBatch.Backfill | client/frame.js:130-134 | the loop keeps the key set and leaves every page as `Backfilled` makes it |
| Importer.ShowImporter | client/frame.js:124-138 | the pages are backfilled, the page is titled "Import from Frame", reports the number of keys, carries an `importer` item holding the pages, and is shown with the caller's anchor |
| Listener.Hex | client/frame.js:95 | hexadecimal text is non-empty and made of lower-case hex digits |
| Listener.FrameId | client/frame.js:94-96 | a generated frame id is non-empty and can be embedded in the attribute selector unchanged |
| Listener.Selection | client/frame.js:145-147 | `$page` holds, in lineup order, exactly the positions of the pages whose key equals `pagekey` |
| Listener.FirstIndex | client/frame.js:166 | the first position of a frame id on one page, or none |
| Listener.FindFrame | client/frame.js:166 | the found frame is the first in document order with the requested id: it lies on a selected page, no earlier selected page holds the id, and no earlier frame on its page has it; none is found only when no selected page holds one |
| Listener.Route | client/frame.js:140-176 | each known action gives its effect; any other action only logs; payloads are the destructured `page`/`title`/`pages`; the anchor is absent exactly when `keepLineup` is truthy and otherwise is `$page`; `resize` resizes the first frame in document order with the requested id on a page with the requested key, and logs only when none exists |
| Listener.AnchoredByDefault | client/frame.js:142 | without `keepLineup` a request is anchored at `$page` |
| Messenger.WikiMessenger.constructor | client/wiki-messenger.js:2-9 | `insideFrame` is set once from whether the window has a parent; no identifiers yet |
| Messenger.Accepted | client/wiki-messenger.js:10-18 | outside a frame, or without an own `wiki` key, the identifiers are kept; otherwise they become `data.wiki.identifiers`, cleared when absent |
| Messenger.WikiMessenger.AcceptIdentifiers | client/wiki-messenger.js:10-18 | changes only `identifiers`, to what `Accepted` gives |
| Messenger.Envelope | client/wiki-messenger.js:28-35 | later spreads win: identifiers override everything, `keepLineup` is the shift state unless the identifiers set it, data fields survive unless overridden, and `action` survives only if the data has no `action` key |
| Messenger.Outgoing | client/wiki-messenger.js:19-36 | a message is sent exactly when inside a frame with truthy identifiers; it is `{wiki: envelope}` |
| Messenger.WikiMessenger.Post | client/wiki-messenger.js:19-36 | returns the message `Outgoing` describes and changes no field |
| Messenger.WikiMessenger.ShowResult | client/wiki-messenger.js:37-39 | posts `showResult` with payload `{page}` |
| Messenger.WikiMessenger.DoInternalLink | client/wiki-messenger.js:40-42 | posts `doInternalLink` with payload `{title}` |
| Messenger.WikiMessenger.Importer | client/wiki-messenger.js:43-45 | posts `importer` with payload `{pages}` |
| Messenger.WikiMessenger.Resize | client/wiki-messenger.js:46-48 | posts `resize` with an empty payload |
| Protocol.Handshake | client/frame.js:47-60 | a frame that receives the advertisement stores exactly `{pagekey, frameid}`, and they are truthy |
| Protocol.Sent | client/wiki-messenger.js:28-35 | a request of a greeted frame carries the `wiki` wrapper the host destructures, with the envelope inside |
| Protocol.EnvelopeIdentifiers | client/wiki-messenger.js:33 | the envelope carries the frame's own `pagekey` and `frameid` |
| Protocol.EnvelopeHeader | client/wiki-messenger.js:30-32 | for data without an `action` key, the envelope carries the posted action; it always carries the shift state as `keepLineup` |
| Protocol.EnvelopeData | client/wiki-messenger.js:31 | every data field not named `pagekey`, `frameid` or `keepLineup` reaches the envelope unchanged |
| Protocol.Delivered | client/frame.js:142 | for data without an `action` key, the host reads back the posted action, the shift state as `keepLineup`, the frame's `pagekey` and `frameid`, and every data field not named `pagekey`, `frameid` or `keepLineup` |
| Protocol.ShowResultRoundTrip | client/frame.js:150-153 | `showResult(page)` opens `page`, anchored at the frame's pages unless shift was held |
| Protocol.InternalLinkRoundTrip | client/frame.js:154-160 | `doInternalLink(title)` follows `title`, from the frame's pages unless shift was held |
| Protocol.ImporterRoundTrip | client/frame.js:161-164 | `importer(pages)` shows the importer for those pages, anchored unless shift was held |
| Protocol.ResizeRoundTrip | client/frame.js:165-172 | `resize()` resizes a frame with the sender's id on a page with the sender's key exactly when the lineup holds one, and otherwise only logs |
| Protocol.GreetAndResize | client/frame.js:62-68 | a frame given a generated id and greeted by the host posts the request `ResizeRoundTrip` routes; outside a frame nothing is sent |

## Left out

- DOM rendering is not modelled: `drawFrame`, `drawError`, the CSS in `emit` and the double-click `bind` (client/frame.js:62-122) are jQuery plumbing.
- `emit` choosing between the frame and the error display is not modelled. The choice is whether `parse` reported an error, which `Descriptor.Parsed` states.
- The body of `resize(frame)` is the opaque `Resize` effect. It reads `scrollHeight` across the frame boundary and catches `DOMException`.
- The caller of `wiki.showResult`/`wiki.doInternalLink` sees effect values. `wiki.newPage` is not applied to the shown page.
- Link resolution in `expand` is the identity, as in the module's own stand-in at client/frame.js:189.
- `postMessage` delivery, `window.addEventListener` and the global install at client/frame.js:178-185 are not modelled.
- The install guard at client/frame.js:182 holds whether or not a listener is already present. So the code does not make installation idempotent, and no such property is claimed.
- Console logging is not modelled: every logged branch is the `Log` effect or sends nothing.
- Listener.FrameId: the floating-point scaling of `Math.random()` is not modelled. The integer part of the scaled draw is the parameter.
- Listener.Route: requires the `wiki` wrapper to be present and not null. Destructuring `data.wiki` throws otherwise, and no rejection is claimed.
- Listener.Route: requires, for `resize`, a frame id text without `"`, `\` or line breaks. Such characters change the jQuery selector's meaning or make it throw. Ids the host generates satisfy this (`Listener.FrameId`).
- Listener.Selection: page keys are strings. jQuery's conversion of numeric-looking `data-key` attributes is not modelled.
- Messenger.Accepted: requires non-null `data`, and a non-null `data.wiki` when present. Reading a property of null throws.
- Importer.ImportBatch.Backfill: requires every page value to be non-null. Reading `journal` of null throws.
- Importer.Backfilled: a page that is an array is left unchanged. The source would attach a `journal` property to it.
- Importer.ImportBatch.Backfill: page objects are values. The source stamps page objects in place, so a page object that is also nested inside another page changes that page too; sharing of objects nested inside other pages is not modelled.
- Importer.ShowImporter: takes the pages as a map of keys to pages. A `pages` payload that is not an object is not modelled, and neither is the order of `Object.values`.
- Messenger.WikiMessenger.Post: `event.shiftKey` is a `bool` parameter. An `undefined` shift state behaves like `false` at the host. When `post` runs outside an event dispatch (from a timer, or after an `await`), the global `event` is undefined, reading `shiftKey` throws after both guards pass and nothing is sent; the model does not capture that case.
- Json: numbers are integers, and keys holding an explicit `undefined` are not modelled.
