/** The values a Brazilian fiscal document refers to. The constants module of
    the base fiscal addon is not part of this model: only the values that the
    electronic-document layer compares against get their own constructor. */
module FiscalTypes {

  import opened Wrappers

  /** `DOCUMENT_ISSUER`: the company itself, or a partner (third party). */
  datatype Issuer = Company | Partner

  /** `processador_edoc`: `PROCESSADOR_NENHUM` ("no transmission processor")
      or any other configured processor. */
  datatype Processor = NoProcessor | OtherProcessor(code: string)

  /** The electronic-document situation. Only `SITUACAO_EDOC_AUTORIZADA` is
      set by this layer; every other situation is carried as its code. */
  datatype EdocState = Authorized | OtherState(code: string)

  /** An `ir.attachment` record, as far as the view actions use it. */
  datatype Attachment = Attachment(id: nat, name: string)

  /** A `l10n_br_fiscal.event` record, as far as the document projects it:
      the outbound request file and the inbound response file. */
  datatype Event = Event(fileRequest: Option<Attachment>, fileResponse: Option<Attachment>)
}
