# Electronic fiscal document layer (l10n_br_fiscal_edi), modelled in Dafny

`l10n_br_fiscal_edi` extends the Brazilian fiscal document of Odoo
(`l10n_br_fiscal.document`) with the electronic-document (e-invoice) layer.
This layer covers the SEFAZ status code and name and the description built
from them. It requires an issuer on electronic documents. It splits a batch of
documents between the non-electronic send and the electronic send, and the
electronic send auto-authorizes documents that have no transmission processor.
It has a serialization hook. It also has the two actions that open a
document's XML file and its PDF report in a new browser tab.

The model has four modules:

- `Wrappers` (wrappers.dfy): `Option`, `Result` and `Outcome`. Errors that the
  source raises are returned as values.
- `FiscalTypes` (fiscal_types.dfy): the issuer, the transmission processor, the
  electronic-document state, attachments and events.
- `WebContent` (web_content.dfy): the decimal rendering of an attachment id and
  the `/web/content/<id>/<name>` URL. It also has a reader of such URLs,
  `ParseUrl`. The reader is the model's own and not a route of the web client.
  It is the partner of the URL writer: the two round-trip lemmas show that a
  written URL and the attachment it names determine each other.
- `EdiDocument` (edi_document.dfy): the `Document` class, whose fields the
  source updates in place. It also holds the status description, the issuer
  constraint, the dispatch, the serialization hook and the view actions.

The imperative parts stay imperative. The electronic send and the
status-description compute are methods with loops over a sequence of
`Document` objects. The dispatch is a method that splits the batch and hands
the electronic group to the electronic send. The `modifies` frames of these
methods name the single field they write, so "no other field changes" is part
of each contract. `view_xml` and `view_pdf`
are methods on `Document` that read the file slots again after the export step
or the PDF step. Those two steps are foreign code. Each takes an effect
parameter: `None` means the step does nothing (the base behaviour), and
`Some(x)` means it fills the slot with `x`. A ghost out-parameter records
whether the step was called.

The send file and the authorization file are related fields of the
authorization event. They are modelled as functions over that event
(`Document.SendFile`, `Document.AuthorizationFile`) and are never stored on
the document.

## Model

| member | source | states |
|---|---|---|
| `EdiDocument.StatusDescription` | l10n_br_fiscal_edi/models/document.py:205-214 | absent exactly when the code is absent or empty; otherwise the code, then " - ", then the name ("" when the name is absent), each at its own position |
| `EdiDocument.StatusDescriptionRoundTrip` | l10n_br_fiscal_edi/models/document.py:208-212 | for a non-empty code without '-', cutting the description at its first " - " gives back the code and the name |
| `EdiDocument.ComputeStatusDescription` | l10n_br_fiscal_edi/models/document.py:205-214 | after the loop, every record's description is the description of its own code and name; only `statusDescription` is written |
| `EdiDocument.CheckIssuer` | l10n_br_fiscal_edi/models/document.py:284-293 | fails, with the issuer-required error, exactly when some record is electronic and has no issuer; a non-electronic record never makes it fail |
| `EdiDocument.FilterProcessador` | l10n_br_fiscal_edi/models/document.py:16-19 | holds exactly when the document is electronic and its processor is "none" |
| `EdiDocument.AutoAuthorizable` | l10n_br_fiscal_edi/models/document.py:228 | the records kept by `filter_processador` are exactly the electronic ones whose processor is "none" |
| `EdiDocument.OnNonElectronicPath` | l10n_br_fiscal_edi/models/document.py:233-234 | is false exactly for the electronic documents issued by the company |
| `EdiDocument.NonElectronicGroup` | l10n_br_fiscal_edi/models/document.py:232-235 | holds exactly the batch records that are not electronic or not issued by the company, and is no longer than the batch |
| `EdiDocument.Without` | l10n_br_fiscal_edi/models/document.py:237 | recordset difference: exactly the records not in the removed set |
| `EdiDocument.ElectronicGroup` | l10n_br_fiscal_edi/models/document.py:237 | the batch minus the non-electronic group holds exactly the electronic, company-issued records of the batch |
| `EdiDocument.DispatchPartitions` | l10n_br_fiscal_edi/models/document.py:231-238 | the electronic group is exactly the electronic, company-issued records; the two groups are disjoint; their multisets add up to the batch |
| `EdiDocument.EletronicDocumentSend` | l10n_br_fiscal_edi/models/document.py:216-229 | each record passing `filter_processador` becomes authorized; every other record keeps its state; no other field changes |
| `EdiDocument.DocumentSend` | l10n_br_fiscal_edi/models/document.py:231-238 | returns the non-electronic group; a batch record becomes authorized exactly when it is electronic, company-issued and has no processor; all other states stay as they were |
| `EdiDocument.SerializeInto` | l10n_br_fiscal_edi/models/document.py:245-246 | the base hook appends nothing to the shared list and returns that same list |
| `EdiDocument.Serialize` | l10n_br_fiscal_edi/models/document.py:240-243 | the result is the shared list after the hook, not the hook's return value; with the base hook it is empty |
| `EdiDocument.TargetNewTab` | l10n_br_fiscal_edi/models/document.py:248-254 | present exactly when the attachment is present; an `ir.actions.act_url` action with target "new" whose URL reads back as the attachment's id and name, which with `WebContent.ParsedUrlIsWritten` makes it exactly `/web/content/<id>/<name>` |
| `EdiDocument.OpenInNewTab` | l10n_br_fiscal_edi/models/document.py:263-265 | the given error exactly when the file is missing; otherwise the new-tab action whose URL reads back as that file, and so is exactly that file's content URL |
| `EdiDocument.Document.XmlFile` | l10n_br_fiscal_edi/models/document.py:259 | the authorization file when it exists, otherwise the send file |
| `EdiDocument.Document.SendFile` | l10n_br_fiscal_edi/models/document.py:92-98 | the request file of the authorization event; absent without that event |
| `EdiDocument.Document.AuthorizationFile` | l10n_br_fiscal_edi/models/document.py:100-106 | the response file of the authorization event; absent without that event |
| `EdiDocument.Document.DocumentExport` | l10n_br_fiscal_edi/models/document.py:261 | the export step either leaves the authorization event alone or replaces it with the exported one |
| `EdiDocument.Document.ViewXml` | l10n_br_fiscal_edi/models/document.py:256-265 | export runs exactly when neither XML file exists beforehand; a file that exists beforehand is the one opened; the result is "No XML file generated!" exactly when neither file exists after export, otherwise the new-tab action for the chosen file |
| `EdiDocument.Document.MakePdf` | l10n_br_fiscal_edi/models/document.py:267-268 | the PDF step either leaves the report file alone or sets the file it produced |
| `EdiDocument.Document.ViewPdf` | l10n_br_fiscal_edi/models/document.py:270-277 | the PDF step runs exactly when the report file or the authorization file is missing; the result is "No PDF file generated!" exactly when the report file is still missing, otherwise the new-tab action for the report file |
| `EdiDocument.Document.constructor` | l10n_br_fiscal_edi/models/document.py:54-57 | a new document is issued by the company, has version "4.00" and no status, events or files |
| `WebContent.Decimal` | l10n_br_fiscal_edi/models/document.py:252 | the id is written as a non-empty run of digits with no leading zero |
| `WebContent.DecimalRoundTrip` | l10n_br_fiscal_edi/models/document.py:252 | reading the written id as a decimal number gives back the id |
| `WebContent.UrlRoundTrip` | l10n_br_fiscal_edi/models/document.py:252 | under the model's own reader, `/web/content/<id>/<name>` reads back as exactly that id and name |
| `WebContent.ParsedUrlIsWritten` | l10n_br_fiscal_edi/models/document.py:252 | a URL the model's reader accepts is exactly the URL written from the id and name it reads, so a zero-padded id or any other variant is not one the document writes |

## Left out

- ORM field declarations (l10n_br_fiscal_edi/models/document.py:37-172) are
  mostly not modelled. The event list, the correction events, the protocol
  dates and numbers, and the cancel and invalidate event slots are related
  fields that nothing in the modelled logic reads. Only the authorization
  event, whose two files the view actions read, and the report file are
  modelled.
- The workflow hooks (l10n_br_fiscal_edi/models/document.py:176-203) only call
  base transitions and continuations that are not part of this model. Note
  that `action_document_cancel` calls the base **confirm** transition at line
  189, not the cancel transition. This looks like a copy-paste defect, but the
  transition graph it would break is not visible here, so it is neither
  modelled nor corrected.
- `_no_eletronic_document_send` is not part of this model. `DocumentSend`
  returns the non-electronic group for it and does not change those
  documents' states.
- `_change_state` is modelled as assigning the new state. Its transition checks
  and its hooks (such as `exec_after_SITUACAO_EDOC_DENEGADA`) are not part of
  this model.
- The fiscal constants module is not part of this model. The issuer is
  `Company | Partner`. The processor is "none" or any other code. The state
  is `Authorized` or any other situation code.
- `_document_export`, the body of `make_pdf` in overriding modules, and
  `super().view_xml()` / `super().view_pdf()` are foreign code. The two steps
  are effect parameters. The `super()` calls are left out.
- The f-string at line 252 writes the attachment name unescaped. A name that
  holds '/', '?' or '#' gives a URL that a web server would not read back as
  that name. The model writes the name as the source does. Its own reader
  takes everything after the id as the name and does not model how the web
  client's route splits or decodes a URL.
- Overrides of `_serialize` that append payloads to the shared list are not
  part of this model. Only the base hook, which appends nothing, is modelled.
- `ensure_one` is not modelled. The view actions are methods on a single
  `Document`, so a multi-record selection cannot be expressed.
- `_document_status` (lines 279-282) returns nothing and changes nothing.
- `@api.constrains("issuer")` makes the framework run `_check_issuer` when the
  issuer is written. This is narrower than "on every save": switching an
  existing document to electronic does not run it. The model follows the
  code. `CheckIssuer` checks the recordset it is given and does not model when
  the framework calls it.
- Translation with `_()`, attachment storage, datetimes and the exception
  machinery are not modelled. Errors are `UserError` values whose messages
  are the source's English texts (`EdiDocument.Message`).
