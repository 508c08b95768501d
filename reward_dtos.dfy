/** The data-annotation rules on `CreateRewardDto`, checked attribute by attribute as
    model validation does. */
module RewardDtos {
  import opened Wrappers
  import opened DotNet
  import opened Validation

  datatype CreateRewardDto = CreateRewardDto(
    name: string,
    description: string,
    category: string,
    requiredPoints: Int32,
    stockQuantity: Int32,
    imageUrl: Option<string>)

  /** The DTO as its initialisers leave it. */
  const DefaultCreateRewardDto := CreateRewardDto("", "", "", 0, 0, None)

  /** `[Range(0, int.MaxValue)]` on an `int`. */
  predicate NonNegativeOk(n: Int32) {
    0 <= n <= INT32_MAX
  }

  /** One failed validation attribute. */
  datatype Violation =
    | NameRequired | NameTooLong
    | DescriptionRequired | DescriptionTooLong
    | CategoryRequired | CategoryTooLong
    | RequiredPointsNegative | StockQuantityNegative
    | ImageUrlTooLong

  /** The attributes in declaration order, each named by the violation it reports. */
  const Attributes: seq<Violation> := [
    NameRequired, NameTooLong, DescriptionRequired, DescriptionTooLong,
    CategoryRequired, CategoryTooLong, RequiredPointsNegative, StockQuantityNegative,
    ImageUrlTooLong]

  /** Whether the attribute behind `v` rejects `dto`. */
  predicate Fails(dto: CreateRewardDto, v: Violation) {
    match v
    case NameRequired => !RequiredOk(Some(dto.name))
    case NameTooLong => !MaxLengthOk(Some(dto.name), 100)
    case DescriptionRequired => !RequiredOk(Some(dto.description))
    case DescriptionTooLong => !MaxLengthOk(Some(dto.description), 500)
    case CategoryRequired => !RequiredOk(Some(dto.category))
    case CategoryTooLong => !MaxLengthOk(Some(dto.category), 50)
    case RequiredPointsNegative => !NonNegativeOk(dto.requiredPoints)
    case StockQuantityNegative => !NonNegativeOk(dto.stockQuantity)
    case ImageUrlTooLong => !MaxLengthOk(dto.imageUrl, 500)
  }

  /** Every attribute appears in the list. */
  lemma Listed(v: Violation)
    ensures v in Attributes
  {
    match v
    case NameRequired => assert Attributes[0] == v;
    case NameTooLong => assert Attributes[1] == v;
    case DescriptionRequired => assert Attributes[2] == v;
    case DescriptionTooLong => assert Attributes[3] == v;
    case CategoryRequired => assert Attributes[4] == v;
    case CategoryTooLong => assert Attributes[5] == v;
    case RequiredPointsNegative => assert Attributes[6] == v;
    case StockQuantityNegative => assert Attributes[7] == v;
    case ImageUrlTooLong => assert Attributes[8] == v;
  }

  /** `Fails` with the request fixed, as the per-attribute test `Collect` takes. */
  function FailsOf(dto: CreateRewardDto): Violation -> bool {
    v => Fails(dto, v)
  }

  /** The violations model validation reports, in declaration order: exactly the
      attributes that fail, each once. */
  function Violations(dto: CreateRewardDto): (r: seq<Violation>)
    ensures forall v :: v in r <==> Fails(dto, v)
    ensures |r| <= |Attributes|
  {
    var r := Collect(FailsOf(dto), Attributes);
    CollectMembers(FailsOf(dto), Attributes);
    assert forall v :: v in r <==> Fails(dto, v) by {
      forall v ensures v in r <==> Fails(dto, v) {
        Listed(v);
      }
    }
    r
  }

  predicate IsValid(dto: CreateRewardDto) {
    Violations(dto) == []
  }

  predicate HasNonWhiteSpace(s: string) {
    exists i :: 0 <= i < |s| && !IsWhiteSpace(s[i])
  }

  /** `[Required]` on a present string is the same as holding a non-white-space character. */
  lemma RequiredMeansNonBlank(s: string)
    ensures RequiredOk(Some(s)) <==> HasNonWhiteSpace(s)
  {
  }

  /** A request is valid exactly when no attribute rejects it. */
  lemma ValidWhenNothingFails(dto: CreateRewardDto)
    ensures IsValid(dto) <==> forall v :: !Fails(dto, v)
  {
    var r := Violations(dto);
    if r != [] {
      assert r[0] in r;
    }
  }

  /** Each attribute, named one by one, accepts the request. */
  predicate EachAttributePasses(dto: CreateRewardDto) {
    && !Fails(dto, NameRequired) && !Fails(dto, NameTooLong)
    && !Fails(dto, DescriptionRequired) && !Fails(dto, DescriptionTooLong)
    && !Fails(dto, CategoryRequired) && !Fails(dto, CategoryTooLong)
    && !Fails(dto, RequiredPointsNegative) && !Fails(dto, StockQuantityNegative)
    && !Fails(dto, ImageUrlTooLong)
  }

  lemma ValidWhenEachPasses(dto: CreateRewardDto)
    ensures IsValid(dto) <==> EachAttributePasses(dto)
  {
    ValidWhenNothingFails(dto);
    if EachAttributePasses(dto) {
      forall v ensures !Fails(dto, v) {
        match v
        case NameRequired =>
        case NameTooLong =>
        case DescriptionRequired =>
        case DescriptionTooLong =>
        case CategoryRequired =>
        case CategoryTooLong =>
        case RequiredPointsNegative =>
        case StockQuantityNegative =>
        case ImageUrlTooLong =>
      }
    }
  }

  lemma EachPassesIff(dto: CreateRewardDto)
    ensures EachAttributePasses(dto) <==>
      && HasNonWhiteSpace(dto.name) && Utf16Length(dto.name) <= 100
      && HasNonWhiteSpace(dto.description) && Utf16Length(dto.description) <= 500
      && HasNonWhiteSpace(dto.category) && Utf16Length(dto.category) <= 50
      && dto.requiredPoints >= 0
      && dto.stockQuantity >= 0
      && (dto.imageUrl.None? || Utf16Length(dto.imageUrl.value) <= 500)
  {
    RequiredMeansNonBlank(dto.name);
    RequiredMeansNonBlank(dto.description);
    RequiredMeansNonBlank(dto.category);
  }

  /** What a valid reward request is, field by field. */
  lemma ValidIff(dto: CreateRewardDto)
    ensures IsValid(dto) <==>
      && HasNonWhiteSpace(dto.name) && Utf16Length(dto.name) <= 100
      && HasNonWhiteSpace(dto.description) && Utf16Length(dto.description) <= 500
      && HasNonWhiteSpace(dto.category) && Utf16Length(dto.category) <= 50
      && dto.requiredPoints >= 0
      && dto.stockQuantity >= 0
      && (dto.imageUrl.None? || Utf16Length(dto.imageUrl.value) <= 500)
  {
    ValidWhenEachPasses(dto);
    EachPassesIff(dto);
  }

  /** Which attributes reject the request as its initialisers leave it: only the three
      `[Required]` ones. */
  lemma DefaultFails(v: Violation)
    ensures Fails(DefaultCreateRewardDto, v) <==>
      v == NameRequired || v == DescriptionRequired || v == CategoryRequired
  {
    assert Utf16Length("") == 0;
  }

  /** The length and range attributes all accept the default request. */
  lemma DefaultTail()
    ensures Collect(FailsOf(DefaultCreateRewardDto),
              [CategoryTooLong, RequiredPointsNegative, StockQuantityNegative, ImageUrlTooLong]) == []
  {
    var tail := [CategoryTooLong, RequiredPointsNegative, StockQuantityNegative, ImageUrlTooLong];
    forall v | v in tail ensures !FailsOf(DefaultCreateRewardDto)(v) {
      DefaultFails(v);
    }
    CollectMembers(FailsOf(DefaultCreateRewardDto), tail);
  }

  lemma DefaultFromCategory()
    ensures Collect(FailsOf(DefaultCreateRewardDto),
              [CategoryRequired, CategoryTooLong, RequiredPointsNegative, StockQuantityNegative, ImageUrlTooLong])
            == [CategoryRequired]
  {
    var tail := [CategoryTooLong, RequiredPointsNegative, StockQuantityNegative, ImageUrlTooLong];
    DefaultTail();
    DefaultFails(CategoryRequired);
    CollectStep(FailsOf(DefaultCreateRewardDto), CategoryRequired, tail);
    assert [CategoryRequired] + tail
        == [CategoryRequired, CategoryTooLong, RequiredPointsNegative, StockQuantityNegative, ImageUrlTooLong];
  }

  lemma DefaultFromDescriptionLength()
    ensures Collect(FailsOf(DefaultCreateRewardDto), Attributes[3..]) == [CategoryRequired]
  {
    var tail := [CategoryRequired, CategoryTooLong, RequiredPointsNegative, StockQuantityNegative, ImageUrlTooLong];
    DefaultFromCategory();
    DefaultFails(DescriptionTooLong);
    CollectStep(FailsOf(DefaultCreateRewardDto), DescriptionTooLong, tail);
    assert Attributes[3..] == [DescriptionTooLong] + tail;
  }

  lemma DefaultFromDescription()
    ensures Collect(FailsOf(DefaultCreateRewardDto), Attributes[2..]) == [DescriptionRequired, CategoryRequired]
  {
    DefaultFromDescriptionLength();
    DefaultFails(DescriptionRequired);
    CollectStep(FailsOf(DefaultCreateRewardDto), DescriptionRequired, Attributes[3..]);
    assert Attributes[2..] == [DescriptionRequired] + Attributes[3..];
  }

  lemma DefaultFromNameLength()
    ensures Collect(FailsOf(DefaultCreateRewardDto), Attributes[1..]) == [DescriptionRequired, CategoryRequired]
  {
    DefaultFromDescription();
    DefaultFails(NameTooLong);
    CollectStep(FailsOf(DefaultCreateRewardDto), NameTooLong, Attributes[2..]);
    assert Attributes[1..] == [NameTooLong] + Attributes[2..];
  }

  lemma DefaultAll()
    ensures Collect(FailsOf(DefaultCreateRewardDto), Attributes) == [NameRequired, DescriptionRequired, CategoryRequired]
  {
    DefaultFromNameLength();
    DefaultFails(NameRequired);
    CollectStep(FailsOf(DefaultCreateRewardDto), NameRequired, Attributes[1..]);
    assert Attributes == [NameRequired] + Attributes[1..];
  }

  /** The request as its initialisers leave it is rejected for its three empty strings. */
  lemma DefaultIsInvalid()
    ensures Violations(DefaultCreateRewardDto) == [NameRequired, DescriptionRequired, CategoryRequired]
    ensures !IsValid(DefaultCreateRewardDto)
  {
    DefaultAll();
  }
}
