# email-nfe-warehouse, modelled in Dafny

This project models the logic at the centre of the `email-nfe-warehouse` cloud function. The function handles Brazilian fiscal documents sent by e-mail: NFe goods invoices, NFe events and NFSe service invoices. Three source files provide the steps of the pipeline:

- gmail.ts lists the mail with a given label. It keeps the first twenty messages, sorted by thread, plus the rest of the twentieth message's thread.
- nfe.ts parses an XML attachment, classifies it, and turns an invoice into its line records and the fields of a header record.
- bigquery.ts writes the lines and then the headers to two warehouse tables.

The entry point `processEmails` in index.ts belongs to a different revision. It only copies attachments to a storage bucket and removes the label. It calls none of these steps, and nothing in the source builds an `InvoiceRecord` header from a document. The model therefore treats each step on its own, with the records as inputs to the warehouse writer.

The model covers four source files:

- `nfe.ts` becomes `nfe.dfy` (module `Nfe`).
  - `NfeDocument` is a class over an already-parsed tree. Its single field is never changed after construction.
  - The getters are functions.
  - `lineItems` and `getInvoiceDescription` are methods with loops. Each is proved against a specification function: `Lines` and `Description`.
  - Description text is cleaned by `CleanDescriptiveTextForStorage`. That function is shown to produce text with no line breaks, tabs, double quotes or semicolons, and no runs of whitespace. Cleaning is idempotent.
- `gmail.ts` becomes `gmail.dfy` (module `Gmail`).
  - It covers the two response validators.
  - It covers what `getMessages` does between the listing call and the fetch calls: validate, sort by thread, and trim at a thread boundary once twenty messages are taken.
- `bigquery.ts` becomes `warehouse.dfy` (module `Warehouse`).
  - It holds the two record types.
  - `insertInvoiceRecords` is a method over a `Sink`, a class that records every insert request and every diagnostic in order.
  - The outcome of each insert is a parameter.
- `util.ts` becomes `util.dfy` (module `Util`).
  - `getEnv` reads an environment map.
  - `getBatchSequence` takes a local clock reading. The model proves that it is YYYYMMDD plus the seconds since midnight over 10^5, and that it increases with time.

Two support modules model the JavaScript semantics the code relies on:

- `js.dfy` (module `Js`): loosely typed values (`Json`), `undefined` and `null`, optional chaining (`Member`, `Path`), truthiness and `||`, `typeof`, `String(v)` and template literals, `Number(v)` and `parseFloat`, and thrown errors (`Completion`).
- `strings.dfy` (module `Strings`): decimal digits, the `\s` whitespace class, `join`, `padStart`, and code-point (character) string order.

Where the code and its comments disagree, the model follows the code:

- The comment on `getBatchSequence` (util.ts:42) says YYYYDDMM. The code builds YYYYMMDD, and `Util.DateDigitsValue` proves that.
- `isNfeValid` accepts events as well as invoices and service documents.
- A service document yields one fixed placeholder line: line number 0, description `'yyy'`, empty codes and zero amounts. No line is derived from the service values.
- The line record built by `lineItems` stores the line number as `lineNumber`. The declared `InvoiceRecordLine` type in bigquery.ts calls the field `lineNo`. The model keeps `lineNumber`, the field that is actually written.

## Model

| member | source | states |
|---|---|---|
| Nfe.NfeDocument.GetTypeAsWritten | ac-etl/cloud-functions/email-nfe-warehouse/src/nfe.ts:35-51 | `getType` as written: the `try` block reads `nfeJson.nfeProc`, `procEventoNFe` and `CompNfse` without optional chaining, and the handler evaluates `Object.keys(this.nfeJson)` before returning unknown. The result throws exactly when the parsed tree is absent, because both the access and the handler throw then. Otherwise it is the corrected classification. |
| Nfe.NfeDocument.GetType | ac-etl/cloud-functions/email-nfe-warehouse/src/nfe.ts:35-51 | A known type means its root element is present and every root ranked above it is absent. The type is unknown if and only if the tree is absent or none of `nfeProc`, `procEventoNFe`, `CompNfse` is present. |
| Nfe.GetTypeOnAbsentTree | ac-etl/cloud-functions/email-nfe-warehouse/src/nfe.ts:35-51 | On an unparsed document, the as-written `getType` throws a TypeError and the corrected one returns unknown. |
| Nfe.GetTypeAgreesOnPresentTree | ac-etl/cloud-functions/email-nfe-warehouse/src/nfe.ts:35-51 | On any parsed tree, the as-written and corrected `getType` agree. |
| Nfe.NfeDocument.IsNfeValid | ac-etl/cloud-functions/email-nfe-warehouse/src/nfe.ts:28-30 | Valid if and only if the tree is there and one of the three roots is present. Events count as valid. |
| Nfe.NfeDocument.Supplier | ac-etl/cloud-functions/email-nfe-warehouse/src/nfe.ts:114-125 | An invoice's supplier is its `emit` node and a service document's is its `PrestadorServico` node, when that node is truthy. Otherwise, and for every other document, the supplier is `{}`. So it is never null or undefined. |
| Nfe.NfeDocument.GetSupplierId | ac-etl/cloud-functions/email-nfe-warehouse/src/nfe.ts:130-146 | Invoice: `CNPJ-` and the CNPJ when that field is defined, else `CPF-` and the CPF, printed even when undefined. Service: throws if and only if `IdentificacaoPrestador` is null or undefined, and otherwise gives `CNPJ-` and its `Cnpj` when that is defined, else the empty id. Events and unknown documents: the empty id. |
| Nfe.SupplierIdShape | ac-etl/cloud-functions/email-nfe-warehouse/src/nfe.ts:130-146 | Every non-empty supplier id starts with `CNPJ-` or `CPF-`. |
| Nfe.DisplayNameFallbacks | ac-etl/cloud-functions/email-nfe-warehouse/src/nfe.ts:151-154 | The display name is the first truthy value among trade name, legal name and provider company name, and the last of them when none is truthy. |
| Nfe.NfeDocument.GetInvoiceNumber | ac-etl/cloud-functions/email-nfe-warehouse/src/nfe.ts:179-187 | An invoice's number is its `ide.nNF` field and a service document's its `Numero` field, as the tree holds them. Other documents have the empty string. |
| Nfe.ServiceIdNamesNumber | ac-etl/cloud-functions/email-nfe-warehouse/src/nfe.ts:179-224 | A service document's id is `Nfse` followed by the string form of its invoice number. |
| Nfe.NfeDocument.GetInvoiceTotal | ac-etl/cloud-functions/email-nfe-warehouse/src/nfe.ts:192-203 | An invoice's total is `Number()` of its `vNF` field. A service document's is `Number()` of its `ValorLiquidoNfse` field. Any other document's total is `Number('0')`. |
| Nfe.InvoiceTotalOfDigits | ac-etl/cloud-functions/email-nfe-warehouse/src/nfe.ts:192-203 | A `vNF` written in plain digits gives the number those digits spell. |
| Nfe.NfeDocument.GetDocumentId | ac-etl/cloud-functions/email-nfe-warehouse/src/nfe.ts:208-224 | Invoice: the `_Id` attribute when it is a string, else empty. Service: `Nfse` followed by the string form of the number. Otherwise: empty. |
| Nfe.NfeDocument.GetFileNameXml | ac-etl/cloud-functions/email-nfe-warehouse/src/nfe.ts:229-231 | The file name is the document id followed by exactly `.xml`. |
| Nfe.OtherDocumentsValidity | ac-etl/cloud-functions/email-nfe-warehouse/src/nfe.ts:28-51 | Of the events and unknown documents, only the unknown ones are invalid. |
| Nfe.OtherDocumentsHaveNoSupplier | ac-etl/cloud-functions/email-nfe-warehouse/src/nfe.ts:114-154 | Events and unknown documents have the supplier `{}`, the empty supplier id and an undefined display name. |
| Nfe.OtherDocumentsHaveNoAmount | ac-etl/cloud-functions/email-nfe-warehouse/src/nfe.ts:179-203 | Events and unknown documents have the empty number and the total `Number('0') = 0`. |
| Nfe.OtherDocumentsHaveNoLines | ac-etl/cloud-functions/email-nfe-warehouse/src/nfe.ts:53-96 | Events and unknown documents have the empty id, the file name `.xml` and no lines. |
| Nfe.DocumentIdSurvivesAbsentTree | ac-etl/cloud-functions/email-nfe-warehouse/src/nfe.ts:208-231 | On an unparsed document, `getType` as written throws, but `getDocumentId` catches the throw. The id is therefore empty and the file name `.xml`, which is also what the corrected model gives. |
| Nfe.RoundUp4 | ac-etl/cloud-functions/email-nfe-warehouse/src/nfe.ts:72-73 | `Math.ceil(x*10000)/10000` keeps NaN as NaN. For finite x the result is at least x, below x + 0.0001, and a multiple of 0.0001. |
| Nfe.RoundUp4IsLeast | ac-etl/cloud-functions/email-nfe-warehouse/src/nfe.ts:72-73 | Rounding stops at the smallest multiple of 0.0001 that is not below x. |
| Nfe.RoundUp4Example | ac-etl/cloud-functions/email-nfe-warehouse/src/nfe.ts:72-73 | 10.00005 rounds up to 10.0001. |
| Nfe.DetEntries | ac-etl/cloud-functions/email-nfe-warehouse/src/nfe.ts:57-62 | An array of `det` entries is iterated as it is. A non-iterable value, including null or undefined, is wrapped into a one-element list. |
| Nfe.LinesOfShape | ac-etl/cloud-functions/email-nfe-warehouse/src/nfe.ts:62-77 | At most one line per entry. Every line carries the document id, a present line number and batch sequence 0. |
| Nfe.UnnumberedEntriesYieldNothing | ac-etl/cloud-functions/email-nfe-warehouse/src/nfe.ts:63 | Entries whose `_nItem` is null or undefined contribute no line. |
| Nfe.LinesOfThrowIsFinal | ac-etl/cloud-functions/email-nfe-warehouse/src/nfe.ts:62-77 | Once an entry has thrown (a numbered item without `prod`), the entries after it change nothing. |
| Nfe.LinesOfAppend | ac-etl/cloud-functions/email-nfe-warehouse/src/nfe.ts:62-77 | Entries are read independently: the lines of a concatenation are the concatenated lines. |
| Nfe.SingleEntryLikeListed | ac-etl/cloud-functions/email-nfe-warehouse/src/nfe.ts:58-62 | A lone `det` object yields exactly the lines it would yield inside an array of entries. |
| Nfe.ItemLineDefaults | ac-etl/cloud-functions/email-nfe-warehouse/src/nfe.ts:64-75 | Falsy item or unit codes become `'nqr'`. A falsy quantity becomes 0. A finite unit price never rounds below itself. |
| Nfe.TextDetIsRejected | ac-etl/cloud-functions/email-nfe-warehouse/src/nfe.ts:58-78 | An invoice whose `det` is a string is iterated character by character and then rejected by the `typeof` assertion. |
| Nfe.LinesCarryDocumentId | ac-etl/cloud-functions/email-nfe-warehouse/src/nfe.ts:53-96 | Each line of a document carries its id and batch sequence 0. An invoice yields at most one line per entry. A service document yields exactly the placeholder line. |
| Nfe.NfeDocument.LineItems | ac-etl/cloud-functions/email-nfe-warehouse/src/nfe.ts:53-96 | The push loop returns exactly the lines or the error of the specification `Lines`. |
| Nfe.ReplaceAll | ac-etl/cloud-functions/email-nfe-warehouse/src/nfe.ts:237-239 | Same length. Each occurrence of the character is replaced and nothing else changes. |
| Nfe.CollapseWord | ac-etl/cloud-functions/email-nfe-warehouse/src/nfe.ts:240 | A word without whitespace is copied unchanged. |
| Nfe.CollapseGap | ac-etl/cloud-functions/email-nfe-warehouse/src/nfe.ts:240 | Any run of whitespace between two words becomes a single space. |
| Nfe.CleanedIsStorageText | ac-etl/cloud-functions/email-nfe-warehouse/src/nfe.ts:236-242 | Cleaned text has no `\n`, `\r`, `\t`, `"` or `;`, and no two consecutive whitespace characters. It is no longer than the input. |
| Nfe.CleanKeepsStorageText | ac-etl/cloud-functions/email-nfe-warehouse/src/nfe.ts:236-242 | Text that already has those properties is left unchanged. |
| Nfe.CleanIdempotent | ac-etl/cloud-functions/email-nfe-warehouse/src/nfe.ts:236-242 | Cleaning twice is the same as cleaning once. |
| Nfe.CleanExample | ac-etl/cloud-functions/email-nfe-warehouse/src/nfe.ts:236-242 | A worked case: a line break, double quotes, a semicolon and a tab between spaces are all normalised. |
| Nfe.CollapseExample | ac-etl/cloud-functions/email-nfe-warehouse/src/nfe.ts:240 | A worked case: a double space shrinks to one and single spaces stay. |
| Nfe.HeaderIsStorageText | ac-etl/cloud-functions/email-nfe-warehouse/src/nfe.ts:104 | The `Description of N line items:` header is already clean. |
| Nfe.DescriptionOpensWithCount | ac-etl/cloud-functions/email-nfe-warehouse/src/nfe.ts:101-109 | The description starts with `Description of N line items:`, where N is the number of lines. |
| Nfe.DescriptionSemicolons | ac-etl/cloud-functions/email-nfe-warehouse/src/nfe.ts:101-109 | A description of N lines contains exactly N semicolons, because cleaning removes every other one. |
| Nfe.EmptyDescription | ac-etl/cloud-functions/email-nfe-warehouse/src/nfe.ts:101-109 | A document without lines is described by `Description of 0 line items:` alone. |
| Nfe.NfeDocument.GetInvoiceDescription | ac-etl/cloud-functions/email-nfe-warehouse/src/nfe.ts:101-109 | The push loop builds the description of `Lines()` and propagates its error. |
| Gmail.GmailMessageShape | ac-etl/cloud-functions/email-nfe-warehouse/src/gmail.ts:14-20 | `isGmailMessage` holds if and only if the value is an object whose `id`, `snippet` and `threadId` are all strings. |
| Gmail.EveryHasIds | ac-etl/cloud-functions/email-nfe-warehouse/src/gmail.ts:29-30 | When `every` answers true, every listed message has a string id and a string thread id. |
| Gmail.ListMessagesShape | ac-etl/cloud-functions/email-nfe-warehouse/src/gmail.ts:25-34 | The listing check passes if and only if all of these hold:<br>• the value is an object with a `messages` array;<br>• every message has string ids;<br>• `nextPageToken` is absent or a string;<br>• `resultSizeEstimate` is absent or a number. |
| Gmail.NoMessagesArrayFails | ac-etl/cloud-functions/email-nfe-warehouse/src/gmail.ts:25-34 | A response without a `messages` array fails the check and does not throw. |
| Gmail.InsertByThreadSpec | ac-etl/cloud-functions/email-nfe-warehouse/src/gmail.ts:118-122 | Inserting into a list sorted by thread keeps it sorted and adds exactly that message. |
| Gmail.SortByThreadSpec | ac-etl/cloud-functions/email-nfe-warehouse/src/gmail.ts:117-122 | The sorted listing is in thread-id order and is a permutation of the listing. |
| Gmail.SortedKeepsIds | ac-etl/cloud-functions/email-nfe-warehouse/src/gmail.ts:118-128 | Sorting adds no message, so the assertion in the loop that every message has ids always holds. |
| Gmail.KeepWholeThreads | ac-etl/cloud-functions/email-nfe-warehouse/src/gmail.ts:124-137 | The push-and-break loop keeps exactly the first `KeepCount` sorted messages. |
| Gmail.KeepCountSpec | ac-etl/cloud-functions/email-nfe-warehouse/src/gmail.ts:124-137 | A listing of up to 20 messages is kept whole. A longer one keeps at least 20. Every message kept past the 20th continues its predecessor's thread. Trimming stops only where the thread changes. |
| Gmail.ThreadsNotSplit | ac-etl/cloud-functions/email-nfe-warehouse/src/gmail.ts:125-137 | In a sorted listing, no thread has messages both kept and dropped. |
| Gmail.SelectMessages | ac-etl/cloud-functions/email-nfe-warehouse/src/gmail.ts:105-137 | An undefined response throws a TypeError. A failed check throws the "not iterable" error when `resultSizeEstimate` is null or undefined, and otherwise yields no messages. A passing listing yields its thread-sorted messages trimmed to `KeepCount`. |
| Gmail.EmptyListingYieldsNothing | ac-etl/cloud-functions/email-nfe-warehouse/src/gmail.ts:105-115 | A listing with a size estimate but no `messages` fails the check without throwing and has a defined estimate, so it yields the empty list. |
| Warehouse.Sink.InsertRows | ac-etl/cloud-functions/email-nfe-warehouse/src/bigquery.ts:66-68 | An insert request is appended to the sink's record with its outcome. It succeeds exactly when no failure is given. |
| Warehouse.Sink.Report | ac-etl/cloud-functions/email-nfe-warehouse/src/bigquery.ts:61-75 | A diagnostic is appended to the log. The inserts are unchanged. |
| Warehouse.InsertInvoiceRecords | ac-etl/cloud-functions/email-nfe-warehouse/src/bigquery.ts:52-78 | The inserts and the diagnostics appended are exactly `WritePlan` and `ReportPlan` for the given outcomes. |
| Warehouse.RejectedBatchWritesNothing | ac-etl/cloud-functions/email-nfe-warehouse/src/bigquery.ts:57-63 | An empty batch, or a batch whose first header has no string id, writes nothing to either table, not even the lines. |
| Warehouse.LaterHeadersUnchecked | ac-etl/cloud-functions/email-nfe-warehouse/src/bigquery.ts:58 | Only the first header's id is checked. The rest are written whatever their ids. |
| Warehouse.LinesBeforeHeaders | ac-etl/cloud-functions/email-nfe-warehouse/src/bigquery.ts:65-69 | An accepted batch first writes its lines to `ac_ops_data.base-nfe-supplier-invoice-line`. It then writes its headers to `base-nfe-supplier-invoice` if and only if the lines went in. |
| Warehouse.HeadersFollowSuccessfulLines | ac-etl/cloud-functions/email-nfe-warehouse/src/bigquery.ts:65-70 | A header insert is always the second request and follows a successful line insert. |
| Warehouse.FailuresAreReported | ac-etl/cloud-functions/email-nfe-warehouse/src/bigquery.ts:71-77 | A failed insert ends in a diagnostic, never an exception. A partial failure is reported with its row errors, apart from other errors. |
| Util.GetEnv | ac-etl/cloud-functions/email-nfe-warehouse/src/util.ts:11-22 | A set variable's value is returned. An unset one gives the default if there is one. It throws if and only if the variable is unset and no default is given. |
| Util.GetEnvPrefersEnvironment | ac-etl/cloud-functions/email-nfe-warehouse/src/util.ts:12-21 | A default never overrides a set variable. The error names the missing variable. |
| Util.BatchSequenceFinite | ac-etl/cloud-functions/email-nfe-warehouse/src/util.ts:44-54 | The date digits are never empty, so `parseFloat` never gives NaN and the batch sequence is always a finite number. |
| Util.ShiftedBack | ac-etl/cloud-functions/email-nfe-warehouse/src/util.ts:53 | `(x*1e5 + s)/1e5` keeps NaN as NaN and otherwise adds s/10^5 to x. |
| Util.DateDigitsValue | ac-etl/cloud-functions/email-nfe-warehouse/src/util.ts:50-53 | The concatenated digits spell YYYYMMDD, with month before day. |
| Util.BatchSequenceValue | ac-etl/cloud-functions/email-nfe-warehouse/src/util.ts:44-54 | The batch sequence equals YYYYMMDD + s/10^5, where s is the number of whole seconds since local midnight. |
| Util.BatchSequenceParts | ac-etl/cloud-functions/email-nfe-warehouse/src/util.ts:47-53 | s is below 10^5. The integer part is the date and the fraction is s/10^5. |
| Util.BatchSequenceSortable | ac-etl/cloud-functions/email-nfe-warehouse/src/util.ts:39-54 | A reading with an earlier date, or the same date and an earlier second, gives a strictly smaller batch sequence. |

## Left out

- XML parsing in the `NfeDocument` constructor uses the fast-xml-parser library. The model takes the parsed tree, or its absence when parsing threw, as the constructor's argument. The console message on a parse error is not modelled.
- `getDateTime` (nfe.ts:159-174) is not part of this model. It depends on `Date` parsing and `toISOString`, including the RangeError on an invalid date.
- Numbers are exact rationals, not IEEE-754 doubles:
  - `Math.ceil(x*10000)/10000`, `parseFloat` and the `/1e5` of the batch sequence are computed exactly;
  - `Number()` and `parseFloat` read decimal numerals only, with an optional sign and fraction. Exponents, `Infinity`, hexadecimal and binary forms are not recognised;
  - `String()` of a fraction prints up to 20 decimal digits instead of the shortest round-trip form;
  - `String()` never uses exponent form. JavaScript prints a magnitude of at least 1e21, or below 1e-6, as for example `1e+21` or `1e-7`; the model prints every digit.
- Object keys are only the fields the parser produced. Inherited prototype properties (for example `toString`) are never found by a member access.
- Nfe.NfeDocument.GetTypeAsWritten: `Object.keys` is modelled as a set of keys, not an ordered list. Its only use is a log line, and the console output is not modelled.
- Js.ToStr: arrays print as a comma-joined list, but `[object Object]` is used for every object, with no custom `toString`.
- Gmail.SortByThreadSpec: `String.prototype.localeCompare` is locale collation. The model uses plain character order instead; for example `"a".localeCompare("B")` is negative, while `B` precedes `a` by character. The two orders agree on ids made of lowercase hexadecimal digits, which is the form of Gmail thread ids. Dafny's `char` is a code point, not a UTF-16 code unit. Stability of the sort is not stated.
- Gmail.SelectMessages: `getMessages` calls `Ac.isIterable`, but util.ts does not export `isIterable`, so that file and gmail.ts evidently come from different revisions. The model reads the call as the array test it is evidently meant to be, which always holds once the listing has passed `isGmailListMessages`.
- Gmail.SelectMessages: the in-place sort of `res.data.messages` is modelled on a copy of the listing. Nothing reads the array afterwards, so aliasing plays no part.
- The Gmail API calls are not part of this model, and neither are what happens after trimming:
  - `messages.list`, `messages.get`, `threads.modify`;
  - `getAuthClient`, `getGmailClient`, `updateMessageLabels`;
  - the parallel `Promise.all` fetch, which keeps the order of the trimmed list;
  - the console logging in validation and trimming.
- `getBigQueryClient` and the real `table.insert` are not part of this model. The sink receives each insert's outcome as a parameter, and `console.log`/`console.error` become entries in the sink's log.
- The lazy module-level clients (`gmail`, `bigQuery`, `slack`) and secret retrieval are left out.
- `socialiseIt` (Slack), `index.ts`, `storage.ts`, the Python scripts and the hello-world function are plain I/O and are not part of this model.
- `isIterable` in util.ts is runtime reflection on `Symbol.iterator`. The model reads it as the array test, and `DetEntries` also treats strings as iterable.
- Util.BatchSequenceValue: the clock reading is a parameter, not the current time. A negative year is not representable.

## Findings

| source | as written | input that shows it | evidently intended | confidence | as-written member | corrected member |
|---|---|---|---|---|---|---|
| ac-etl/cloud-functions/email-nfe-warehouse/src/nfe.ts:47-50 | The catch block of `getType` logs `Object.keys(this.nfeJson)`. When the constructor's parse failed, `nfeJson` is undefined, so this throws a TypeError from inside the handler. `isNfeValid`, `lineItems`, `supplier` and the other getters that call `getType` throw in turn. There are two exceptions. `getDocumentId` (nfe.ts:208-224) catches the throw and returns `''`, so `getFileNameXml` returns `.xml`. The model's `GetDocumentId` gives the same (`Nfe.DocumentIdSurvivesAbsentTree`). | A document whose XML parsing threw, so that `nfeJson` is undefined. | Such a document is classified as `'unknown'`, which the `return 'unknown'` after the handler provides. | medium, not executed | Nfe.NfeDocument.GetTypeAsWritten, with Nfe.GetTypeOnAbsentTree | Nfe.NfeDocument.GetType |
