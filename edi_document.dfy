/** The electronic-document layer of a Brazilian fiscal document
    (`l10n_br_fiscal.document` as extended by `l10n_br_fiscal_edi`): the
    status description, the issuer constraint, the transmission dispatch of a
    batch, the serialization hook and the actions that open the XML and PDF
    files in a new browser tab. */
module EdiDocument {

  import opened Wrappers
  import opened FiscalTypes
  import opened WebContent

  /** The two user-facing errors of the view actions and the validation error
      of the issuer constraint. */
  datatype UserError = NoXmlFile | NoPdfFile | IssuerRequired

  function Message(e: UserError): string {
    match e
    case NoXmlFile => "No XML file generated!"
    case NoPdfFile => "No PDF file generated!"
    case IssuerRequired => "The field 'Issuer' is required for brazilian electronic documents!"
  }

  /** An `ir.actions.act_url` window action. */
  datatype UrlAction = UrlAction(actionType: string, url: string, target: string)

  const ActUrl: string := "ir.actions.act_url"
  const NewTab: string := "new"

  /** The separator between status code and status name. */
  const Separator: string := " - "

  // ---------------------------------------------------------------------------
  // The document record
  // ---------------------------------------------------------------------------

  class Document {
    var electronic: bool
    var issuer: Option<Issuer>
    var processor: Processor
    var state: EdocState
    var statusCode: Option<string>
    var statusName: Option<string>
    var statusDescription: Option<string>
    var documentVersion: string
    var isEdocPrinted: bool
    /** The authorization event; the send and authorization files are
        projected through it, never stored on the document. */
    var authorizationEvent: Option<Event>
    var reportFile: Option<Attachment>

    /** A new document with the field defaults: issued by the company,
        version "4.00", no status, no events, no files. */
    constructor (electronic: bool, processor: Processor, state: EdocState)
      ensures this.electronic == electronic && this.processor == processor && this.state == state
      ensures issuer == Some(Company) && documentVersion == "4.00" && !isEdocPrinted
      ensures statusCode == None && statusName == None && statusDescription == None
      ensures authorizationEvent == None && reportFile == None
    {
      this.electronic := electronic;
      this.processor := processor;
      this.state := state;
      issuer := Some(Company);
      documentVersion := "4.00";
      isEdocPrinted := false;
      statusCode, statusName, statusDescription := None, None, None;
      authorizationEvent := None;
      reportFile := None;
    }

    /** `send_file_id`: the request file of the authorization event. */
    function SendFile(): (f: Option<Attachment>)
      reads this
      ensures authorizationEvent.None? ==> f.None?
      ensures authorizationEvent.Some? ==> f == authorizationEvent.value.fileRequest
    {
      match authorizationEvent
      case None => None
      case Some(e) => e.fileRequest
    }

    /** `authorization_file_id`: the response file of the authorization event. */
    function AuthorizationFile(): (f: Option<Attachment>)
      reads this
      ensures authorizationEvent.None? ==> f.None?
      ensures authorizationEvent.Some? ==> f == authorizationEvent.value.fileResponse
    {
      match authorizationEvent
      case None => None
      case Some(e) => e.fileResponse
    }

    /** `authorization_file_id or send_file_id`. */
    function XmlFile(): (f: Option<Attachment>)
      reads this
      ensures f.Some? <==> AuthorizationFile().Some? || SendFile().Some?
      ensures AuthorizationFile().Some? ==> f == AuthorizationFile()
      ensures AuthorizationFile().None? ==> f == SendFile()
    {
      if AuthorizationFile().Some? then AuthorizationFile() else SendFile()
    }

    /** `_document_export`, whose body is not part of this model: `effect`
        is what it does to the authorization event (None: nothing). */
    method DocumentExport(effect: Option<Event>)
      modifies this`authorizationEvent
      ensures authorizationEvent == if effect.Some? then effect else old(authorizationEvent)
    {
      if effect.Some? {
        authorizationEvent := effect;
      }
    }

    /** `view_xml`: the authorization file, else the send file; the export
        runs once, only when neither exists; an error when neither exists
        after it. */
    method ViewXml(exportEffect: Option<Event>) returns (r: Result<UrlAction, UserError>, ghost exported: bool)
      modifies this`authorizationEvent
      ensures exported <==> old(XmlFile()).None?
      ensures authorizationEvent == if exported && exportEffect.Some? then exportEffect else old(authorizationEvent)
      ensures old(XmlFile()).Some? ==> r == OpenInNewTab(old(XmlFile()), NoXmlFile)
      ensures r == OpenInNewTab(XmlFile(), NoXmlFile)
    {
      var xmlFile := XmlFile();
      exported := false;
      if xmlFile.None? {
        DocumentExport(exportEffect);
        exported := true;
        xmlFile := XmlFile();
      }
      if xmlFile.None? {
        return Failure(NoXmlFile), exported;
      }
      r := Success(TargetNewTab(xmlFile).value);
    }

    /** `make_pdf`, a no-op meant for override: `effect` is the report file it
        produces (None: it produces none). */
    method MakePdf(effect: Option<Attachment>)
      modifies this`reportFile
      ensures reportFile == if effect.Some? then effect else old(reportFile)
    {
      if effect.Some? {
        reportFile := effect;
      }
    }

    /** `view_pdf`: the PDF is generated when the report file or the
        authorization file is missing; an error when the report file is still
        missing after that. */
    method ViewPdf(pdfEffect: Option<Attachment>) returns (r: Result<UrlAction, UserError>, ghost madePdf: bool)
      modifies this`reportFile
      ensures madePdf <==> old(reportFile).None? || AuthorizationFile().None?
      ensures reportFile == if madePdf && pdfEffect.Some? then pdfEffect else old(reportFile)
      ensures r == OpenInNewTab(reportFile, NoPdfFile)
    {
      madePdf := false;
      if reportFile.None? || AuthorizationFile().None? {
        MakePdf(pdfEffect);
        madePdf := true;
      }
      if reportFile.None? {
        return Failure(NoPdfFile), madePdf;
      }
      r := Success(TargetNewTab(reportFile).value);
    }
  }

  // ---------------------------------------------------------------------------
  // Status description
  // ---------------------------------------------------------------------------

  /** `value or ""` for a Char field. */
  function OrEmpty(s: Option<string>): string {
    if s.Some? then s.value else ""
  }

  /** `status_description`: absent when the code is absent or empty (a falsy
      Char), otherwise the code, the separator and the name (empty when the
      name is absent). */
  function StatusDescription(code: Option<string>, name: Option<string>): (r: Option<string>)
    ensures r.None? <==> code.None? || code.value == ""
    ensures r.Some? ==> |r.value| == |code.value| + |Separator| + |OrEmpty(name)|
    ensures r.Some? ==> r.value[..|code.value|] == code.value
    ensures r.Some? ==> r.value[|code.value|..|code.value| + |Separator|] == Separator
    ensures r.Some? ==> r.value[|code.value| + |Separator|..] == OrEmpty(name)
  {
    if code.Some? && code.value != "" then
      Some(code.value + Separator + OrEmpty(name))
    else
      None
  }

  /** `s` holds " - " from position `j` on. */
  predicate SeparatorAt(s: string, j: int) {
    0 <= j && j + 3 <= |s| && s[j] == ' ' && s[j + 1] == '-' && s[j + 2] == ' '
  }

  /** The position of the first separator in `s`, or `|s|` when there is none. */
  function FirstSeparator(s: string): (k: nat)
    ensures k <= |s|
    ensures k < |s| ==> SeparatorAt(s, k)
    ensures forall j :: 0 <= j < k ==> !SeparatorAt(s, j)
    decreases |s|
  {
    if |s| < 3 then |s|
    else if SeparatorAt(s, 0) then 0
    else
      var k := FirstSeparator(s[1..]);
      assert forall j :: 1 <= j <= k ==> (SeparatorAt(s, j) <==> SeparatorAt(s[1..], j - 1));
      1 + k
  }

  /** Reads a status description back as (code, name), cutting at the first
      separator. */
  function SplitStatusDescription(s: string): (string, string) {
    var k := FirstSeparator(s);
    if k < |s| then (s[..k], s[k + |Separator|..]) else (s, "")
  }

  /** The description loses nothing: for a code without '-' (a numeric status
      code, say) the code and the name, empty when absent, are read back. */
  lemma StatusDescriptionRoundTrip(code: string, name: Option<string>)
    requires code != ""
    requires forall i :: 0 <= i < |code| ==> code[i] != '-'
    ensures StatusDescription(Some(code), name).Some?
    ensures SplitStatusDescription(StatusDescription(Some(code), name).value) == (code, OrEmpty(name))
  {
    var s := StatusDescription(Some(code), name).value;
    assert SeparatorAt(s, |code|);
    forall j | 0 <= j < |code|
      ensures !SeparatorAt(s, j)
    {
      assert s[j + 1] == if j + 1 < |code| then code[j + 1] else Separator[0];
    }
    var k := FirstSeparator(s);
    assert k == |code|;
  }

  /** `_compute_status_description`, over a recordset. */
  method ComputeStatusDescription(records: seq<Document>)
    modifies (set d | d in records)`statusDescription
    ensures forall d :: d in records ==> d.statusDescription == StatusDescription(d.statusCode, d.statusName)
  {
    var i := 0;
    while i < |records|
      invariant 0 <= i <= |records|
      invariant forall j :: 0 <= j < i ==>
        records[j].statusDescription == StatusDescription(records[j].statusCode, records[j].statusName)
    {
      var record := records[i];
      record.statusDescription := StatusDescription(record.statusCode, record.statusName);
      i := i + 1;
    }
  }

  // ---------------------------------------------------------------------------
  // Issuer constraint
  // ---------------------------------------------------------------------------

  /** An electronic document without issuer. */
  predicate IssuerMissing(d: Document)
    reads d
  {
    d.electronic && d.issuer.None?
  }

  /** `_check_issuer`: fails exactly when some electronic record has no
      issuer; records that are not electronic are never rejected. */
  method CheckIssuer(records: seq<Document>) returns (r: Outcome<UserError>)
    ensures r.Fail? <==> exists d :: d in records && IssuerMissing(d)
    ensures r.Fail? ==> r.error == IssuerRequired
  {
    var i := 0;
    while i < |records|
      invariant 0 <= i <= |records|
      invariant forall j :: 0 <= j < i ==> !IssuerMissing(records[j])
    {
      if records[i].electronic && records[i].issuer.None? {
        assert records[i] in records;
        return Fail(IssuerRequired);
      }
      i := i + 1;
    }
    return Pass;
  }

  // ---------------------------------------------------------------------------
  // Transmission dispatch
  // ---------------------------------------------------------------------------

  /** `filter_processador`. */
  predicate FilterProcessador(d: Document)
    reads d`electronic, d`processor
    ensures FilterProcessador(d) <==> d.electronic && d.processor == NoProcessor
  {
    d.electronic && d.processor == NoProcessor
  }

  /** The condition of the non-electronic path of `_document_send`. */
  predicate OnNonElectronicPath(d: Document)
    reads d`electronic, d`issuer
    ensures !OnNonElectronicPath(d) <==> d.electronic && d.issuer == Some(Company)
  {
    !d.electronic || d.issuer != Some(Company)
  }

  /** `self.filtered(filter_processador)`, in batch order. */
  function AutoAuthorizable(records: seq<Document>): (r: seq<Document>)
    reads (set d | d in records)`electronic, (set d | d in records)`processor
    ensures forall d | d in r :: d in records
    ensures forall d | d in records :: d in r <==> FilterProcessador(d)
  {
    if records == [] then []
    else (if FilterProcessador(records[0]) then [records[0]] else []) + AutoAuthorizable(records[1..])
  }

  /** The non-electronic group of `_document_send`, in batch order. */
  function NonElectronicGroup(batch: seq<Document>): (r: seq<Document>)
    reads (set d | d in batch)`electronic, (set d | d in batch)`issuer
    ensures forall d | d in r :: d in batch
    ensures forall d | d in batch :: d in r <==> OnNonElectronicPath(d)
    ensures |r| <= |batch|
  {
    if batch == [] then []
    else (if OnNonElectronicPath(batch[0]) then [batch[0]] else []) + NonElectronicGroup(batch[1..])
  }

  /** Recordset difference `records - removed`: the records not in
      `removed`, in order, repetitions kept. */
  function Without(records: seq<Document>, removed: seq<Document>): (r: seq<Document>)
    ensures forall d | d in r :: d in records
    ensures forall d | d in records :: d in r <==> d !in removed
    ensures |r| <= |records|
  {
    if records == [] then []
    else (if records[0] !in removed then [records[0]] else []) + Without(records[1..], removed)
  }

  /** The electronic group of `_document_send`: the batch minus the
      non-electronic group. */
  function ElectronicGroup(batch: seq<Document>): (r: seq<Document>)
    reads (set d | d in batch)`electronic, (set d | d in batch)`issuer
    ensures forall d | d in r :: d in batch
    ensures forall d | d in batch :: d in r <==> d.electronic && d.issuer == Some(Company)
  {
    Without(batch, NonElectronicGroup(batch))
  }

  lemma {:induction false} SplitCounts(s: seq<Document>, removed: seq<Document>)
    requires forall d :: d in s ==> (d in removed <==> OnNonElectronicPath(d))
    ensures multiset(NonElectronicGroup(s)) + multiset(Without(s, removed)) == multiset(s)
    decreases |s|
  {
    if s != [] {
      SplitCounts(s[1..], removed);
      assert s == [s[0]] + s[1..];
    }
  }

  /** `_document_send` partitions its batch: the two groups are disjoint,
      each holds exactly the records of its condition, and together they are
      the batch, every record as often as in the batch. */
  lemma {:induction false} DispatchPartitions(batch: seq<Document>)
    ensures forall d :: d in ElectronicGroup(batch) <==> d in batch && !OnNonElectronicPath(d)
    ensures forall d :: d in NonElectronicGroup(batch) ==> d !in ElectronicGroup(batch)
    ensures multiset(NonElectronicGroup(batch)) + multiset(ElectronicGroup(batch)) == multiset(batch)
  {
    SplitCounts(batch, NonElectronicGroup(batch));
  }

  /** `_eletronic_document_send`: every record that passes
      `filter_processador` becomes authorized; no other record and no other
      field changes. */
  method EletronicDocumentSend(group: seq<Document>)
    modifies (set d | d in group)`state
    ensures forall d :: d in group ==> d.state == if FilterProcessador(d) then Authorized else old(d.state)
  {
    var targets := AutoAuthorizable(group);
    var i := 0;
    while i < |targets|
      invariant 0 <= i <= |targets|
      invariant forall d :: d in group ==> d.state == if d in targets[..i] then Authorized else old(d.state)
    {
      targets[i].state := Authorized;
      assert targets[..i + 1] == targets[..i] + [targets[i]];
      i := i + 1;
    }
    assert targets[..i] == targets;
  }

  /** `_document_send`: the non-electronic group is handed back for the base
      workflow's non-electronic send; the electronic group goes through
      `EletronicDocumentSend`. Exactly the electronic, company-issued records
      without a transmission processor become authorized. */
  method DocumentSend(batch: seq<Document>) returns (noElectronic: seq<Document>)
    modifies (set d | d in batch)`state
    ensures noElectronic == NonElectronicGroup(batch)
    ensures forall d :: d in batch ==>
      d.state == if d.electronic && d.issuer == Some(Company) && d.processor == NoProcessor
                 then Authorized else old(d.state)
  {
    noElectronic := NonElectronicGroup(batch);
    EletronicDocumentSend(ElectronicGroup(batch));
  }

  // ---------------------------------------------------------------------------
  // Serialization hook
  // ---------------------------------------------------------------------------

  /** The list `serialize` creates and shares with `_serialize`, which
      overriding modules append their payloads to in place. */
  class Edocs<T> {
    var items: seq<T>

    constructor ()
      ensures items == []
    {
      items := [];
    }
  }

  /** `_serialize`: the base hook appends nothing to the shared list and
      hands that same list back. */
  method SerializeInto<T>(edocs: Edocs<T>) returns (r: Edocs<T>)
    modifies edocs
    ensures r == edocs
    ensures edocs.items == old(edocs.items)
  {
    r := edocs;
  }

  /** `serialize`: a fresh list, passed to the hook, whose return value is
      not used; the list itself is the result. With the base hook it is
      empty. */
  method Serialize<T>() returns (r: seq<T>)
    ensures r == []
  {
    var edocs := new Edocs<T>();
    var _ := SerializeInto(edocs);
    r := edocs.items;
  }

  // ---------------------------------------------------------------------------
  // New-tab actions
  // ---------------------------------------------------------------------------

  /** `_target_new_tab`: a URL action opening the attachment's content in a
      new tab, or nothing for an absent attachment. */
  function TargetNewTab(attachment: Option<Attachment>): (r: Option<UrlAction>)
    ensures r.Some? <==> attachment.Some?
    ensures r.Some? ==> r.value.actionType == ActUrl && r.value.target == NewTab
    ensures r.Some? ==> ParseUrl(r.value.url) == Some(ContentRef(attachment.value.id, attachment.value.name))
  {
    match attachment
    case None => None
    case Some(a) =>
      UrlRoundTrip(a.id, a.name);
      Some(UrlAction(ActUrl, Url(a.id, a.name), NewTab))
  }

  /** The tail of both view actions: the error when the file is missing,
      otherwise the new-tab action for it. */
  function OpenInNewTab(file: Option<Attachment>, missing: UserError): (r: Result<UrlAction, UserError>)
    ensures r.Failure? <==> file.None?
    ensures r.Failure? ==> r.error == missing
    ensures r.Success? ==> r.value.actionType == ActUrl && r.value.target == NewTab
    ensures r.Success? ==> ParseUrl(r.value.url) == Some(ContentRef(file.value.id, file.value.name))
  {
    if file.None? then Failure(missing) else Success(TargetNewTab(file).value)
  }
}
