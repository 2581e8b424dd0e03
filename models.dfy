/** The records of app/models/insert.py that the pipeline fills in. Only
    the text fields are kept; the embedding vectors and the database
    methods are not part of this model. */
module Models {
  import opened Text

  /** A PROM request form. The dataclass declares `date` and `requestor`
      as plain strings, but nothing enforces that, and `filter_duplicates`
      tests them against `None`; so they are optional here as well. */
  datatype PromForm = PromForm(
    date: Option<string>,
    filename: string,
    requestor: Option<string>,
    requestTitle: Option<string>,
    chemicalsAndProcesses: Option<string>,
    requestReason: Option<string>,
    processFlow: Option<string>,
    amountAndForm: Option<string>,
    staffConsiderations: Option<string>,
    rawProm: Option<string>,
    embeddedString: Option<string>)

  /** One thread of the email archive, as handed to the extraction step. */
  datatype Email = Email(
    date: string,
    filepath: string,
    requestor: string,
    promApproval: Option<string>,
    promConsiderations: Option<string>,
    chemicals: Option<string>,
    processes: Option<string>,
    rawThread: Option<string>,
    embeddedString: Option<string>)

  /** Python truthiness of an optional string: present and non-empty. */
  predicate Truthy(s: Option<string>) { s.Some? && s.value != "" }
}
