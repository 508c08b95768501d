/** The reward endpoints that take an image: the guards they check first, which image
    URL reaches the reward service, and the HTTP status each exception becomes. The
    reward service is passed in as functions; the calls made are returned as a trace. */
module RewardController {
  import opened Wrappers
  import opened DotNet
  import opened RewardDtos
  import ImageService

  /** The parts of a reward the controller reads back from the service. */
  datatype RewardDto = RewardDto(id: int, imageUrl: Option<string>)

  /** The multipart form posted to `Create`. */
  datatype CreateRewardWithImageDto = CreateRewardWithImageDto(
    name: string,
    description: string,
    category: string,
    requiredPoints: Int32,
    stockQuantity: Int32,
    imageUrl: Option<string>,
    imageFile: Option<ImageService.FormFile>)

  /** The multipart form posted to `Update`. */
  datatype UpdateRewardWithImageDto = UpdateRewardWithImageDto(
    id: int,
    name: string,
    description: string,
    category: string,
    requiredPoints: Int32,
    stockQuantity: Int32,
    isAvailable: bool,
    imageUrl: Option<string>,
    imageFile: Option<ImageService.FormFile>)

  /** What `Update` hands to the reward service. */
  datatype UpdateRewardDto = UpdateRewardDto(
    id: int,
    name: string,
    description: string,
    category: string,
    requiredPoints: Int32,
    stockQuantity: Int32,
    isAvailable: bool,
    imageUrl: Option<string>)

  datatype ActionResult =
    | CreatedAt(reward: RewardDto)
    | OkReward(reward: RewardDto)
    | BadRequest
    | NotFound
    | Conflict
    | InternalServerError

  function HttpStatus(a: ActionResult): int {
    match a
    case CreatedAt(_) => 201
    case OkReward(_) => 200
    case BadRequest => 400
    case NotFound => 404
    case Conflict => 409
    case InternalServerError => 500
  }

  /** The three `catch` clauses, tried in order. */
  function ResultForException(e: ExceptionKind): (r: ActionResult)
    ensures r == Conflict <==> e.IsInvalidOperation()
    ensures r == BadRequest <==> e.IsArgument()
    ensures r == InternalServerError <==> !e.IsInvalidOperation() && !e.IsArgument()
    ensures HttpStatus(r) in {400, 409, 500}
  {
    if e.IsInvalidOperation() then Conflict
    else if e.IsArgument() then BadRequest
    else InternalServerError
  }

  /** Derived exceptions are caught by their base class's clause. */
  lemma ExceptionStatuses()
    ensures HttpStatus(ResultForException(InvalidOperationException)) == 409
    ensures HttpStatus(ResultForException(ObjectDisposedException)) == 409
    ensures HttpStatus(ResultForException(ArgumentException)) == 400
    ensures HttpStatus(ResultForException(ArgumentNullException)) == 400
    ensures HttpStatus(ResultForException(ArgumentOutOfRangeException)) == 400
    ensures HttpStatus(ResultForException(KeyNotFoundException)) == 500
    ensures HttpStatus(ResultForException(DbUpdateException)) == 500
    ensures HttpStatus(ResultForException(IOException)) == 500
  {
  }

  /** A call the controller made to the image or reward service. */
  datatype Call =
    | SaveImage
    | ReplaceImage(replacement: ImageService.ImageReplacement)
    | GetReward(id: int)
    | AddReward(created: CreateRewardDto)
    | UpdateReward(updated: UpdateRewardDto)

  datatype Outcome = Outcome(result: ActionResult, calls: seq<Call>)

  /** `Create`'s image URL: the uploaded file's URL when a file is posted, otherwise
      the URL given in the form. */
  function CreateImageUrl(dto: CreateRewardWithImageDto, env: ImageService.ImageEnv): (r: Result<Option<string>, ImageService.UploadError>)
    ensures dto.imageFile.None? ==> r == Ok(dto.imageUrl)
    ensures dto.imageFile.Some? ==> (r.Err? <==> ImageService.CheckUpload(dto.imageFile).Err?)
    ensures dto.imageFile.Some? && r.Ok? ==> r.value == Some(ImageService.SaveRewardImage(dto.imageFile, env).value)
  {
    if dto.imageFile.None? then Ok(dto.imageUrl)
    else match ImageService.SaveRewardImage(dto.imageFile, env)
      case Err(e) => Err(e)
      case Ok(url) => Ok(Some(url))
  }

  function CreateRequest(dto: CreateRewardWithImageDto, imageUrl: Option<string>): (c: CreateRewardDto)
    ensures c.name == dto.name && c.description == dto.description && c.category == dto.category
    ensures c.requiredPoints == dto.requiredPoints && c.stockQuantity == dto.stockQuantity
    ensures c.imageUrl == imageUrl
  {
    CreateRewardDto(dto.name, dto.description, dto.category, dto.requiredPoints, dto.stockQuantity, imageUrl)
  }

  /** `POST api/reward`. */
  function Create(modelStateValid: bool, dto: CreateRewardWithImageDto, env: ImageService.ImageEnv,
                  addReward: CreateRewardDto -> Result<RewardDto, ExceptionKind>): (r: Outcome)
    ensures !modelStateValid ==> r == Outcome(BadRequest, [])
    ensures modelStateValid && CreateImageUrl(dto, env).Err? ==> r == Outcome(BadRequest, [SaveImage])
    ensures modelStateValid && CreateImageUrl(dto, env).Ok? ==>
      var c := CreateRequest(dto, CreateImageUrl(dto, env).value);
      && r.calls == (if dto.imageFile.Some? then [SaveImage] else []) + [AddReward(c)]
      && r.result == match addReward(c) case Ok(reward) => CreatedAt(reward) case Err(e) => ResultForException(e)
  {
    if !modelStateValid then Outcome(BadRequest, [])
    else
      var uploads := if dto.imageFile.Some? then [SaveImage] else [];
      match CreateImageUrl(dto, env)
      case Err(_) => Outcome(ResultForException(ArgumentException), uploads)
      case Ok(imageUrl) =>
        var c := CreateRequest(dto, imageUrl);
        var calls := uploads + [AddReward(c)];
        match addReward(c)
        case Ok(reward) => Outcome(CreatedAt(reward), calls)
        case Err(e) => Outcome(ResultForException(e), calls)
  }

  /** With a file posted, the URL typed into the form has no effect at all. */
  lemma UploadedUrlWinsOnCreate(modelStateValid: bool, dto: CreateRewardWithImageDto, otherUrl: Option<string>,
                                env: ImageService.ImageEnv, addReward: CreateRewardDto -> Result<RewardDto, ExceptionKind>)
    requires dto.imageFile.Some?
    ensures Create(modelStateValid, dto, env, addReward) == Create(modelStateValid, dto.(imageUrl := otherUrl), env, addReward)
  {
  }

  /** Without a file, the form's URL reaches the service as given, blank or not. */
  lemma GivenUrlUsedOnCreate(dto: CreateRewardWithImageDto, env: ImageService.ImageEnv,
                             addReward: CreateRewardDto -> Result<RewardDto, ExceptionKind>)
    requires dto.imageFile.None?
    ensures Create(true, dto, env, addReward).calls == [AddReward(CreateRequest(dto, dto.imageUrl))]
  {
  }

  /** `Update`'s image URL when no file is posted: the form's URL if it is not blank and
      differs from the stored one, otherwise the stored one. */
  function KeptOrGivenUrl(existing: RewardDto, dto: UpdateRewardWithImageDto): (r: Option<string>)
    ensures r == existing.imageUrl || r == dto.imageUrl
    ensures IsNullOrWhiteSpace(dto.imageUrl) ==> r == existing.imageUrl
    ensures !IsNullOrWhiteSpace(r) || r == existing.imageUrl
  {
    if !IsNullOrWhiteSpace(dto.imageUrl) && dto.imageUrl != existing.imageUrl then dto.imageUrl
    else existing.imageUrl
  }

  function UpdateRequest(dto: UpdateRewardWithImageDto, imageUrl: Option<string>): (u: UpdateRewardDto)
    ensures u.id == dto.id && u.name == dto.name && u.description == dto.description && u.category == dto.category
    ensures u.requiredPoints == dto.requiredPoints && u.stockQuantity == dto.stockQuantity
    ensures u.isAvailable == dto.isAvailable && u.imageUrl == imageUrl
  {
    UpdateRewardDto(dto.id, dto.name, dto.description, dto.category, dto.requiredPoints, dto.stockQuantity,
                    dto.isAvailable, imageUrl)
  }

  /** The rest of `Update` once the reward was found. */
  function UpdateExisting(existing: RewardDto, dto: UpdateRewardWithImageDto, env: ImageService.ImageEnv,
                          fileExists: string -> bool,
                          updateReward: UpdateRewardDto -> Result<RewardDto, ExceptionKind>): (r: Outcome)
    ensures dto.imageFile.None? ==>
      var u := UpdateRequest(dto, KeptOrGivenUrl(existing, dto));
      && r.calls == [UpdateReward(u)]
      && r.result == match updateReward(u) case Ok(reward) => OkReward(reward) case Err(e) => ResultForException(e)
    ensures dto.imageFile.Some? ==>
      var replacement := ImageService.UpdateRewardImage(existing.imageUrl, dto.imageFile, env, fileExists);
      && (replacement.newUrl.Err? ==> r == Outcome(BadRequest, [ReplaceImage(replacement)]))
      && (replacement.newUrl.Ok? ==>
            var u := UpdateRequest(dto, Some(replacement.newUrl.value));
            && r.calls == [ReplaceImage(replacement), UpdateReward(u)]
            && r.result == match updateReward(u) case Ok(reward) => OkReward(reward) case Err(e) => ResultForException(e))
  {
    var image :=
      if dto.imageFile.Some? then
        var replacement := ImageService.UpdateRewardImage(existing.imageUrl, dto.imageFile, env, fileExists);
        (match replacement.newUrl case Err(e) => Err(e) case Ok(url) => Ok(Some(url)), [ReplaceImage(replacement)])
      else (Ok(KeptOrGivenUrl(existing, dto)), []);
    match image.0
    case Err(_) => Outcome(ResultForException(ArgumentException), image.1)
    case Ok(imageUrl) =>
      var u := UpdateRequest(dto, imageUrl);
      var calls := image.1 + [UpdateReward(u)];
      match updateReward(u)
      case Ok(reward) => Outcome(OkReward(reward), calls)
      case Err(e) => Outcome(ResultForException(e), calls)
  }

  /** `PUT api/reward/{id}`. */
  function Update(id: int, dto: UpdateRewardWithImageDto, env: ImageService.ImageEnv,
                  getById: int -> Result<Option<RewardDto>, ExceptionKind>, fileExists: string -> bool,
                  updateReward: UpdateRewardDto -> Result<RewardDto, ExceptionKind>): (r: Outcome)
    ensures id != dto.id ==> r == Outcome(BadRequest, [])
    ensures id == dto.id ==> |r.calls| >= 1 && r.calls[0] == GetReward(id)
    ensures id == dto.id && getById(id).Err? ==> r.result == ResultForException(getById(id).error) && r.calls == [GetReward(id)]
    ensures id == dto.id && getById(id) == Ok(None) ==> r == Outcome(NotFound, [GetReward(id)])
    ensures id == dto.id && getById(id).Ok? && getById(id).value.Some? ==>
      r == var rest := UpdateExisting(getById(id).value.value, dto, env, fileExists, updateReward);
           Outcome(rest.result, [GetReward(id)] + rest.calls)
  {
    if id != dto.id then Outcome(BadRequest, [])
    else
      match getById(id)
      case Err(e) => Outcome(ResultForException(e), [GetReward(id)])
      case Ok(None) => Outcome(NotFound, [GetReward(id)])
      case Ok(Some(existing)) =>
        var rest := UpdateExisting(existing, dto, env, fileExists, updateReward);
        Outcome(rest.result, [GetReward(id)] + rest.calls)
  }

  /** An uploaded file decides the new URL whatever URL the form carries. */
  lemma UploadedUrlWinsOnUpdate(existing: RewardDto, dto: UpdateRewardWithImageDto, otherUrl: Option<string>,
                                env: ImageService.ImageEnv, fileExists: string -> bool,
                                updateReward: UpdateRewardDto -> Result<RewardDto, ExceptionKind>)
    requires dto.imageFile.Some?
    ensures UpdateExisting(existing, dto, env, fileExists, updateReward)
         == UpdateExisting(existing, dto.(imageUrl := otherUrl), env, fileExists, updateReward)
  {
  }

  /** Without a file, a blank URL or the stored URL itself keeps the stored URL, and
      only a different, non-blank URL replaces it. */
  lemma UpdateKeepsOrReplacesUrl(existing: RewardDto, dto: UpdateRewardWithImageDto,
                                                    env: ImageService.ImageEnv, fileExists: string -> bool,
                                                    updateReward: UpdateRewardDto -> Result<RewardDto, ExceptionKind>)
    requires dto.imageFile.None?
    ensures var sent := UpdateExisting(existing, dto, env, fileExists, updateReward).calls[0].updated.imageUrl;
      && (IsNullOrWhiteSpace(dto.imageUrl) || dto.imageUrl == existing.imageUrl ==> sent == existing.imageUrl)
      && (!IsNullOrWhiteSpace(dto.imageUrl) && dto.imageUrl != existing.imageUrl ==> sent == dto.imageUrl)
  {
  }

  /** Points, stock and availability reach the service exactly as posted. */
  lemma UpdateForwardsFields(id: int, dto: UpdateRewardWithImageDto, env: ImageService.ImageEnv,
                             getById: int -> Result<Option<RewardDto>, ExceptionKind>, fileExists: string -> bool,
                             updateReward: UpdateRewardDto -> Result<RewardDto, ExceptionKind>, k: nat)
    requires var r := Update(id, dto, env, getById, fileExists, updateReward); k < |r.calls| && r.calls[k].UpdateReward?
    ensures var u := Update(id, dto, env, getById, fileExists, updateReward).calls[k].updated;
      u.requiredPoints == dto.requiredPoints && u.stockQuantity == dto.stockQuantity
      && u.isAvailable == dto.isAvailable && u.id == id
  {
  }

  /** A replacement file that fails validation still costs the old image: it is deleted
      first, the request ends in 400, and the stored reward keeps pointing at it. */
  lemma RejectedUploadDeletesStoredImage(id: int, dto: UpdateRewardWithImageDto, env: ImageService.ImageEnv,
                                         existing: RewardDto, fileExists: string -> bool,
                                         updateReward: UpdateRewardDto -> Result<RewardDto, ExceptionKind>)
    requires id == dto.id && dto.imageFile.Some?
    requires ImageService.CheckUpload(dto.imageFile).Err?
    requires ImageService.DeleteRewardImage(existing.imageUrl, fileExists)
    ensures var r := Update(id, dto, env, _ => Ok(Some(existing)), fileExists, updateReward);
      && r.result == BadRequest
      && |r.calls| == 2 && r.calls[1].ReplaceImage? && r.calls[1].replacement.oldDeleted
      && forall c :: c in r.calls ==> !c.UpdateReward?
  {
    var r := Update(id, dto, env, _ => Ok(Some(existing)), fileExists, updateReward);
    var replacement := ImageService.UpdateRewardImage(existing.imageUrl, dto.imageFile, env, fileExists);
    assert r.calls == [GetReward(id), ReplaceImage(replacement)];
  }
}
