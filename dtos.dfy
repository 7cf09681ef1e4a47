/**
 * The request data objects (app/DataTransferObjects/CreateUrlData.php and UpdateUrlData.php).
 *
 * An input array is a record of `Entry` values: a key is absent, present with null, or present
 * with a value. PHP's `??` treats the first two alike. Times are integers.
 */
module DataTransferObjects {
  import opened Wrappers
  import opened UrlStatusEnum

  datatype Entry<T> = Absent | Null | Given(value: T)

  /** `$data[$key] ?? null`. */
  function OrNull<T>(e: Entry<T>): (o: Option<T>)
    ensures o.Some? <==> e.Given?
    ensures o.Some? ==> o.value == e.value
  {
    if e.Given? then Some(e.value) else None
  }

  /** A status given either as an enum case or as its backing string. */
  datatype StatusInput = StatusString(s: string) | StatusEnum(status: UrlStatus)

  /** The `ValueError` of `UrlStatus::from` for a string that is not a backing value. */
  datatype ValueError = ValueError(value: string)

  /** `UrlStatus::from` on a string, or the enum case as given. */
  function ParseStatus(s: StatusInput): (r: Result<UrlStatus, ValueError>)
    ensures s.StatusEnum? ==> r == Ok(s.status)
    ensures s.StatusString? && r.Ok? ==> r.value.Value() == s.s
    ensures s.StatusString? && r.Err? ==> r.error == ValueError(s.s) && From(s.s).None?
  {
    match s
    case StatusEnum(status) => Ok(status)
    case StatusString(v) => if From(v).Some? then Ok(From(v).value) else Err(ValueError(v))
  }

  // ---------------------------------------------------------------------------------------------
  // CreateUrlData

  datatype CreateUrlData = CreateUrlData(
    originalUrl: string,
    title: Option<string>,
    customCode: Option<string>,
    status: UrlStatus,
    expiresAt: Option<int>)

  /** `new CreateUrlData($originalUrl)`: the constructor's defaults. */
  function NewCreateUrlData(originalUrl: string): (d: CreateUrlData)
    ensures d.originalUrl == originalUrl
    ensures d.title.None? && d.customCode.None? && d.status == Active && d.expiresAt.None?
  {
    CreateUrlData(originalUrl, None, None, Active, None)
  }

  /** The array `CreateUrlData::fromArray` accepts; `original_url` is required. */
  datatype CreateInput = CreateInput(
    originalUrl: string,
    title: Entry<string>,
    customCode: Entry<string>,
    status: Entry<StatusInput>,
    expiresAt: Entry<int>)

  /** `CreateUrlData::fromArray($data)`, or the ValueError of an unknown status string. */
  function CreateFromArray(data: CreateInput): Result<CreateUrlData, ValueError>
  {
    var status := if data.status.Given? then ParseStatus(data.status.value) else Ok(Active);
    if status.Err? then Err(status.error)
    else Ok(CreateUrlData(data.originalUrl, OrNull(data.title), OrNull(data.customCode), status.value, OrNull(data.expiresAt)))
  }

  /**
   * `fromArray` fails only on an unknown status string; otherwise the URL is copied verbatim,
   * missing or null optional keys become null, and a missing or null status becomes Active.
   */
  lemma CreateFromArrayFields(data: CreateInput)
    ensures CreateFromArray(data).Err? <==>
      data.status.Given? && data.status.value.StatusString? && From(data.status.value.s).None?
    ensures CreateFromArray(data).Ok? ==>
      var d := CreateFromArray(data).value;
      && d.originalUrl == data.originalUrl
      && (data.title.Given? <==> d.title.Some?)
      && (data.customCode.Given? <==> d.customCode.Some?)
      && (data.expiresAt.Given? <==> d.expiresAt.Some?)
      && (!data.status.Given? ==> d.status == Active)
      && (data.status.Given? ==> Ok(d.status) == ParseStatus(data.status.value))
  {
  }

  /** The array with every key present that describes `d`, its status as a string or as the enum. */
  function CreateToArray(d: CreateUrlData, statusAsString: bool): CreateInput
  {
    CreateInput(
      d.originalUrl,
      if d.title.Some? then Given(d.title.value) else Null,
      if d.customCode.Some? then Given(d.customCode.value) else Null,
      Given(if statusAsString then StatusString(d.status.Value()) else StatusEnum(d.status)),
      if d.expiresAt.Some? then Given(d.expiresAt.value) else Null)
  }

  /** `fromArray` reproduces every value given to it, with the status in either form. */
  lemma CreateFromArrayRoundTrip(d: CreateUrlData, statusAsString: bool)
    ensures CreateFromArray(CreateToArray(d, statusAsString)) == Ok(d)
  {
    FromValue(d.status);
  }

  // ---------------------------------------------------------------------------------------------
  // UpdateUrlData

  /**
   * The update request. `expiresAtWasSet` records that the `expires_at` key was present, so that a
   * null can clear the expiry; the class as written does not declare it (see `FromArrayAsWritten`).
   */
  datatype UpdateUrlData = UpdateUrlData(
    originalUrl: Option<string>,
    status: Option<UrlStatus>,
    expiresAt: Option<int>,
    expiresAtWasSet: bool)
  {
    /** `hasChanges()`: some field is non-null. */
    predicate HasChanges()
    {
      originalUrl.Some? || status.Some? || expiresAt.Some?
    }
  }

  /** `new UpdateUrlData()`: every field null. */
  const EmptyUpdate: UpdateUrlData := UpdateUrlData(None, None, None, false)

  /** `hasChanges()` is false exactly for the object the no-argument constructor builds. */
  lemma HasChangesIffNotEmpty(d: UpdateUrlData)
    ensures !d.HasChanges() <==> d.(expiresAtWasSet := false) == EmptyUpdate
  {
  }

  datatype UpdateInput = UpdateInput(originalUrl: Entry<string>, status: Entry<StatusInput>, expiresAt: Entry<int>)

  /** The status of `UpdateUrlData::fromArray`: null when missing, parsed when a string. */
  function UpdateStatus(data: UpdateInput): Result<Option<UrlStatus>, ValueError>
  {
    if !data.status.Given? then Ok(None)
    else
      var s := ParseStatus(data.status.value);
      if s.Err? then Err(s.error) else Ok(Some(s.value))
  }

  /** `UpdateUrlData::fromArray($data)` as written: the presence of `expires_at` is lost. */
  function FromArrayAsWritten(data: UpdateInput): Result<UpdateUrlData, ValueError>
  {
    var status := UpdateStatus(data);
    if status.Err? then Err(status.error)
    else Ok(UpdateUrlData(OrNull(data.originalUrl), status.value, OrNull(data.expiresAt), false))
  }

  /** `fromArray` with the presence of the `expires_at` key recorded. */
  function UpdateFromArray(data: UpdateInput): Result<UpdateUrlData, ValueError>
  {
    var status := UpdateStatus(data);
    if status.Err? then Err(status.error)
    else Ok(UpdateUrlData(OrNull(data.originalUrl), status.value, OrNull(data.expiresAt), !data.expiresAt.Absent?))
  }

  /**
   * `fromArray` fails only on an unknown status string; missing or null keys become null, a string
   * status is parsed, and the recorded flag says whether `expires_at` was present.
   */
  lemma UpdateFromArrayFields(data: UpdateInput)
    ensures UpdateFromArray(data).Err? <==>
      data.status.Given? && data.status.value.StatusString? && From(data.status.value.s).None?
    ensures UpdateFromArray(data).Ok? ==>
      var d := UpdateFromArray(data).value;
      && d.originalUrl == OrNull(data.originalUrl)
      && d.expiresAt == OrNull(data.expiresAt)
      && (d.status.Some? <==> data.status.Given?)
      && (d.status.Some? ==> Ok(d.status.value) == ParseStatus(data.status.value))
      && (d.expiresAtWasSet <==> !data.expiresAt.Absent?)
    ensures FromArrayAsWritten(data) == (if UpdateFromArray(data).Ok?
      then Ok(UpdateFromArray(data).value.(expiresAtWasSet := false)) else UpdateFromArray(data))
  {
  }

  /** As written, `fromArray(['expires_at' => null])` and `fromArray([])` build the same object. */
  lemma AsWrittenCannotTellNullFromMissing()
    ensures FromArrayAsWritten(UpdateInput(Absent, Absent, Null)) == FromArrayAsWritten(UpdateInput(Absent, Absent, Absent))
    ensures FromArrayAsWritten(UpdateInput(Absent, Absent, Absent)) == Ok(EmptyUpdate)
  {
  }

  /** With the presence recorded, the two inputs are told apart. */
  lemma RecordedFlagTellsNullFromMissing()
    ensures UpdateFromArray(UpdateInput(Absent, Absent, Null)).Ok?
    ensures UpdateFromArray(UpdateInput(Absent, Absent, Null)).value.expiresAtWasSet
    ensures UpdateFromArray(UpdateInput(Absent, Absent, Absent)) == Ok(EmptyUpdate)
  {
  }
}
