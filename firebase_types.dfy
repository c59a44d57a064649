/** The document shapes, the file and error records and the validation
    constants shared by the submission and moderation code. */
module FirebaseTypes {
  import opened Wrappers

  datatype Status = Pending | Approved | Rejected

  /** The two collections a submission can belong to. */
  datatype SubmissionType = Relatos | PortalMemoria

  datatype SubmissionSource = WebForm | AdminUpload

  datatype DocumentMetadata = DocumentMetadata(
    ipAddress: Option<string>,
    userAgent: Option<string>,
    submissionSource: SubmissionSource)

  /** The collection-specific part of a document: a relato has a title, a
      markdown body and a banner; a Portal de la Memoria entry has a
      description, one image and submission metadata. */
  datatype Body =
    | RelatoBody(title: string, content: string, bannerImageUrl: string)
    | PortalBody(description: string, imageUrl: string, metadata: DocumentMetadata)

  /** A stored document of either collection. Timestamps are milliseconds;
      `createdAt` may be absent in what a reader receives, and the readers
      each choose a fallback for it. */
  datatype Submission = Submission(
    id: string,
    name: string,
    surname: string,
    phone: string,
    dniImageUrl: string,
    status: Status,
    createdAt: Option<int>,
    updatedAt: int,
    approvedAt: Option<int>,
    approvedBy: Option<string>,
    adminNotes: Option<string>,
    body: Body)
  {
    /** The collection whose shape this document has. */
    function Kind(): SubmissionType {
      if body.RelatoBody? then Relatos else PortalMemoria
    }
  }

  /** A browser `File`: its name, MIME type and size in bytes. */
  datatype File = File(name: string, mimeType: string, size: nat)

  /** The application's error record. */
  datatype FirebaseError = FirebaseError(code: string, message: string, userMessage: Option<string>)

  /** A value that reached a `catch` clause. */
  datatype Thrown =
    | ErrorObject(name: string, message: string, code: string)  // an `Error` instance; "" for no code
    | AppError(err: FirebaseError)                              // a plain object built by the error helpers
    | StringValue(s: string)
    | NullValue
  {
    /** `error?.code` when truthy. */
    function Code(): Option<string> {
      match this
      case ErrorObject(_, _, c) => if c == "" then None else Some(c)
      case AppError(e) => if e.code == "" then None else Some(e.code)
      case _ => None
    }

    /** `error?.message` when truthy. */
    function Message(): Option<string> {
      match this
      case ErrorObject(_, m, _) => if m == "" then None else Some(m)
      case AppError(e) => if e.message == "" then None else Some(e.message)
      case _ => None
    }

    /** `error?.userMessage` when truthy. */
    function UserMessage(): Option<string> {
      match this
      case AppError(e) => if e.userMessage == Some("") then None else e.userMessage
      case _ => None
    }

    /** `error?.name`. */
    function Name(): Option<string> {
      match this
      case ErrorObject(n, _, _) => Some(n)
      case _ => None
    }

    /** `error?.toString()`: `Error.prototype.toString` for an error, the
        object default for a plain object, the string itself, and nothing
        for null. */
    function ToString(): Option<string> {
      match this
      case ErrorObject(n, m, _) =>
        if n == "" then Some(m) else if m == "" then Some(n) else Some(n + ": " + m)
      case AppError(_) => Some("[object Object]")
      case StringValue(s) => Some(s)
      case NullValue => None
    }
  }

  const MAX_DNI_IMAGE_SIZE: nat := 5 * 1024 * 1024
  const MAX_BANNER_IMAGE_SIZE: nat := 10 * 1024 * 1024
  const MAX_PORTAL_IMAGE_SIZE: nat := 10 * 1024 * 1024
  const ALLOWED_IMAGE_TYPES: seq<string> := ["image/jpeg", "image/png", "image/webp"]
  const MIN_NAME_LENGTH: nat := 2
  const MAX_NAME_LENGTH: nat := 50
  const MIN_PHONE_LENGTH: nat := 10
  const MAX_PHONE_LENGTH: nat := 15
  const MIN_TITLE_LENGTH: nat := 5
  const MAX_TITLE_LENGTH: nat := 100
  const MIN_CONTENT_LENGTH: nat := 50
  const MAX_CONTENT_LENGTH: nat := 10000
  const MIN_DESCRIPTION_LENGTH: nat := 10
  const MAX_DESCRIPTION_LENGTH: nat := 1000

  const MIB: nat := 1024 * 1024
}
