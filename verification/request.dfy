/** The request handler `performRequest`: the input checks that run before
    any I/O, and the success response built from the moderation labels. */
module Adapter {
  import opened Wrappers
  import TrueSight

  /** The `data` object of a request; `hash` is `None` when undefined. */
  datatype Data = Data(hash: Option<string>)

  /** An inbound request. `id` is `None` when undefined; `data` is `None`
      when it is absent or otherwise falsy. */
  datatype Request = Request(id: Option<string>, data: Option<Data>)

  const ErrorStatus: int := 500
  const SuccessStatus: int := 200

  const NoData: string := "No data"
  const JobRunIdRequired: string := "Job run ID required"
  const ContentHashRequired: string := "Content hash required"

  /** Outcome of the input checks: an error response, or the job run ID and
      content hash the fetch proceeds with. */
  datatype Validation =
    | Rejected(status: int, message: string)
    | Proceed(jobRunID: string, hash: string)

  /** The payload of a response: an error message, or the raw moderation
      labels together with the normalised result string. */
  datatype Body =
    | Errored(message: string)
    | Succeeded(moderationLabels: seq<TrueSight.Label>, result: string)

  /** A response as handed to the callback: status code, the echoed job run
      ID and the payload. */
  datatype Response = Response(status: int, jobRunID: Option<string>, body: Body)

  /** The checks of `performRequest`, first failure wins: data, then job run
      ID, then content hash. */
  function Validate(req: Request): (v: Validation)
    ensures v.Rejected? ==> v.status == ErrorStatus
    ensures v == Rejected(ErrorStatus, NoData) <==> req.data.None?
    ensures v == Rejected(ErrorStatus, JobRunIdRequired) <==> req.data.Some? && req.id.None?
    ensures v == Rejected(ErrorStatus, ContentHashRequired) <==>
              req.data.Some? && req.id.Some? && req.data.value.hash.None?
    ensures v.Proceed? <==> req.data.Some? && req.id.Some? && req.data.value.hash.Some?
    ensures v.Proceed? ==> v.jobRunID == req.id.value && v.hash == req.data.value.hash.value
  {
    if req.data.None? then Rejected(ErrorStatus, NoData)
    else if req.id.None? then Rejected(ErrorStatus, JobRunIdRequired)
    else if req.data.value.hash.None? then Rejected(ErrorStatus, ContentHashRequired)
    else Proceed(req.id.value, req.data.value.hash.value)
  }

  /** Reference for the checks: every problem the request has, in check
      order. A request without data has no hash either. */
  function Problems(req: Request): seq<string> {
    (if req.data.None? then [NoData] else [])
    + (if req.id.None? then [JobRunIdRequired] else [])
    + (if req.data.None? || req.data.value.hash.None? then [ContentHashRequired] else [])
  }

  /** Validation reports exactly the first problem, and proceeds only when
      there is none. */
  lemma ValidateReportsFirstProblem(req: Request)
    ensures Validate(req).Proceed? <==> Problems(req) == []
    ensures Problems(req) != [] ==> Validate(req) == Rejected(ErrorStatus, Problems(req)[0])
  {
  }

  /** Missing data is reported as such whatever the job run ID is. */
  lemma NoDataWhateverTheId(data: Option<Data>, id1: Option<string>, id2: Option<string>)
    requires data.None?
    ensures Validate(Request(id1, data)) == Validate(Request(id2, data)) == Rejected(ErrorStatus, NoData)
  {
  }

  /** `performRequest` when the fetch and the moderation call succeed:
      `detect` stands for both and maps a content hash to the labels found. */
  function Perform(req: Request, detect: string -> seq<TrueSight.Label>): (resp: Response)
    ensures resp.jobRunID == req.id
    ensures resp.status == SuccessStatus || resp.status == ErrorStatus
    ensures resp.status == SuccessStatus <==> Validate(req).Proceed?
    ensures resp.status == SuccessStatus ==>
              var labels := detect(req.data.value.hash.value);
              resp.body == Succeeded(labels, TrueSight.Convert(labels))
    ensures resp.status == ErrorStatus ==> resp.body == Errored(Validate(req).message)
  {
    match Validate(req)
    case Rejected(status, message) => Response(status, req.id, Errored(message))
    case Proceed(_, hash) =>
      var labels := detect(hash);
      Response(SuccessStatus, req.id, Succeeded(labels, TrueSight.Convert(labels)))
  }

  /** A request with data and a job run ID but no hash is refused with the
      hash message. */
  lemma MissingHashExample()
    ensures Validate(Request(Some("1"), Some(Data(None)))) == Rejected(ErrorStatus, ContentHashRequired)
  {
  }
}
