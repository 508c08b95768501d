# RecyclingSystem core in Dafny

This project models the business core of RecyclingSystem, an ASP.NET Core back end. Users hand in recyclable materials as orders. A completed order earns its submitter points, and points buy rewards.

The model covers these parts, all proved in Dafny:

- **Order service.** Completes and cancels orders, creates, updates and deletes them, and maps between entities and DTOs. `Orders.OrderService` is a class whose fields are the persisted tables. Its methods change those fields in place and state the new tables exactly.
- **Order and reward repositories.** Their queries are filters, sorts and lookups over the tables, modelled as functions.
- **Request validators.** The data-annotation rules of `CreateRewardDto` and `RegisterUserDto` are modelled as lists of violations. This includes a small matcher for the phone-number regular expression.
- **Image service.** Models the upload checks, the public URL of a stored image, the choice of base URL, and which file a delete or replace touches.
- **Reward controller.** Models the guards of `Create` and `Update`, which image URL reaches the reward service, and the HTTP status each exception becomes.

The modules:

- `Wrappers`: `Option` and `Result`. C# `null` becomes `None`, and a thrown exception becomes `Err`.
- `DotNet`: the .NET pieces the core relies on:
  - unchecked 32-bit `int` addition;
  - the exception classes and their subclassing, which decides which `catch` clause runs;
  - `char.IsWhiteSpace`, `Trim`, `TrimEnd`, `StartsWith` and `ToLowerInvariant`.
- `Linq`: `Where`, `FirstOrDefault` and a key-sorting `OrderBy`, with their contracts.
- `Entities`: the entities as values, and the status names with `Enum.Parse`.
- `OrderRepository`, `RewardRepository`, `RewardDtos`, `Registration`, `ImageService`, `RewardController`, `Orders`: one module per modelled source file or layer.

External effects become parameters:

- **Points formula.** `PointsCalculator.CalculateOrderPoints` is a function parameter.
- **Failures.** The exception the commit of `CompleteOrderAsync` throws, if it throws, is a parameter.
- **Clock.** The current date is a parameter.
- **Material types.** Parsing a material-type name is a parameter, as is the `[EmailAddress]` check.
- **Image upload.** The generated GUID, the configured backend URL, the current request and whether a file exists are parameters.
- **Reward service.** It is a set of functions passed to the controller. The controller's calls are returned as a trace, so guard order is observable.

## Model

| member | source | states |
|---|---|---|
| `DotNet.AddInt32` | BussinessLogicLayer/Services/OrderService.cs:196 | `Points += earned` is the true sum when it fits in `int` and otherwise differs from it by a multiple of 2^32 (unchecked wrap-around) |
| `DotNet.ToLowerInvariant` | BussinessLogicLayer/Services/ImageService.cs:56 | same length, each character lower-cased |
| `DotNet.TrimEnd` | BussinessLogicLayer/Services/ImageService.cs:31 | the result is a prefix; everything removed is the trimmed character; the result does not end in it |
| `DotNet.TrimStart` | BussinessLogicLayer/Services/OrderService.cs:40 | the result is a suffix, and everything removed is white space |
| `DotNet.TrimEndWhiteSpace` | BussinessLogicLayer/Services/OrderService.cs:40 | the result is a prefix, and everything removed is white space |
| `DotNet.TrimIsSlice` | BussinessLogicLayer/Services/OrderService.cs:40 | `Trim` returns one contiguous piece of its input; everything before and after that piece is white space; the piece neither starts nor ends with white space |
| `DotNet.TrimBlank` | BussinessLogicLayer/Services/OrderService.cs:40 | `Trim` gives the empty string exactly for a null-or-white-space string |
| `DotNet.TrimUnpadded` | BussinessLogicLayer/Services/OrderService.cs:40 | a string without leading or trailing white space is its own `Trim` |
| `Linq.Where` | DataAccessLayer/Repositories/Impementations/OrderRepository.cs:37 | keeps exactly the elements satisfying the predicate, each as often as in the input |
| `Linq.WhereConcat` | DataAccessLayer/Repositories/Impementations/OrderRepository.cs:37 | filtering a concatenation filters each part and concatenates the results, so the input order is kept |
| `Linq.WhereSingle` | DataAccessLayer/Repositories/Impementations/OrderRepository.cs:37 | a one-element input keeps its element exactly when it satisfies the predicate |
| `Linq.WhereWeakening` | DataAccessLayer/Repositories/Impementations/RewardRepository.cs:22 | a weaker filter keeps at least as much: the multiset and length are monotone |
| `Linq.FirstIndex` | BussinessLogicLayer/Services/OrderService.cs:99 | the first index satisfying the predicate, or none exactly when no element does |
| `Linq.FirstOrDefault` | DataAccessLayer/Repositories/Impementations/RewardRepository.cs:32 | the first element satisfying the predicate, or none exactly when no element satisfies it |
| `Linq.InsertBy` | DataAccessLayer/Repositories/Impementations/RewardRepository.cs:23 | the result holds the input and exactly one more element, the inserted one |
| `Linq.InsertBySorted` | DataAccessLayer/Repositories/Impementations/RewardRepository.cs:23 | inserting into a key-sorted sequence keeps it sorted |
| `Linq.OrderBy` | DataAccessLayer/Repositories/Impementations/RewardRepository.cs:23 | the result is sorted by the key and is a permutation of the input |
| `Entities.StatusName` | BussinessLogicLayer/Services/OrderService.cs:24 | a status's `ToString()` is a non-empty name that neither starts nor ends with white space |
| `Entities.ParseStatus` | BussinessLogicLayer/Services/OrderService.cs:40 | among names, `Enum.Parse<OrderStatus>` accepts a string exactly when, trimmed, it is a status name, and returns that status; numeric strings are not modelled (see Left out) |
| `Entities.StatusRoundTrip` | BussinessLogicLayer/Services/OrderService.cs:24 | parsing a status's `ToString()` gives back that status |
| `OrderRepository.OrderIndex` | DataAccessLayer/Repositories/Impementations/OrderRepository.cs:82 | the position of an order with that `ID`, or none exactly when no order has it |
| `OrderRepository.UserIndex` | DataAccessLayer/Repositories/Impementations/OrderRepository.cs:78 | the position of the user an order's `UserId` refers to, or none exactly when no user has it |
| `OrderRepository.FindUser` | DataAccessLayer/Repositories/Impementations/OrderRepository.cs:78-79 | the user a reference resolves to, found exactly when `UserIndex` finds one |
| `OrderRepository.FindFactory` | DataAccessLayer/Repositories/Impementations/OrderRepository.cs:80 | a stored factory with that id, or none exactly when there is none |
| `OrderRepository.Include` | DataAccessLayer/Repositories/Impementations/OrderRepository.cs:78-81 | the order is unchanged; user and collector are the users their ids resolve to (no collector id, no collector); the factory is the first with the order's `FactoryId`, or none exactly when there is none; the materials are exactly those the order references |
| `OrderRepository.GetOrderWithDetails` | DataAccessLayer/Repositories/Impementations/OrderRepository.cs:75-83 | finds an order exactly when one has that `ID`, and then it is the first stored one, loaded by `Include` with its user, collector, factory and materials |
| `OrderRepository.GetAll` | DataAccessLayer/Repositories/Impementations/OrderRepository.cs:20-28 | returns every stored order, each as often as stored |
| `OrderRepository.GetOrdersByUserId` | DataAccessLayer/Repositories/Impementations/OrderRepository.cs:30-39 | exactly the orders with that `UserId`, with their multiplicities |
| `OrderRepository.GetOrdersByCollectorId` | DataAccessLayer/Repositories/Impementations/OrderRepository.cs:41-50 | exactly the orders with that `CollectorId`; an order without a collector never matches |
| `OrderRepository.GetOrdersByFactoryId` | DataAccessLayer/Repositories/Impementations/OrderRepository.cs:52-61 | exactly the orders with that `FactoryId`, with their multiplicities |
| `OrderRepository.GetOrdersByStatus` | DataAccessLayer/Repositories/Impementations/OrderRepository.cs:63-72 | exactly the orders with that status, with their multiplicities; every returned order has that status |
| `OrderRepository.StatusQueriesPartition` | DataAccessLayer/Repositories/Impementations/OrderRepository.cs:63-72 | the three status queries together return every stored order exactly once |
| `RewardRepository.GetAvailableRewardsForUser` | DataAccessLayer/Repositories/Impementations/RewardRepository.cs:19-25 | only affordable rewards; every affordable reward, as often as stored; sorted by `RequiredPoints` |
| `RewardRepository.AvailableMonotone` | DataAccessLayer/Repositories/Impementations/RewardRepository.cs:22 | more points never hide a reward |
| `RewardRepository.OutOfStockStillListed` | DataAccessLayer/Repositories/Impementations/RewardRepository.cs:22 | stock and `IsAvailable` play no part: an affordable reward with no stock is still listed |
| `RewardRepository.GetRewardWithHistory` | DataAccessLayer/Repositories/Impementations/RewardRepository.cs:27-33 | found exactly when a reward has that `ID`; its history is exactly the rows referring to it |
| `RewardDtos.Violations` | BussinessLogicLayer/DTOs/Reward/CreateRewardDto.cs:7-27 | the reported violations are exactly the attributes that reject the request, each once |
| `RewardDtos.ValidIff` | BussinessLogicLayer/DTOs/Reward/CreateRewardDto.cs:7-27 | valid exactly when name, description and category have a non-blank character and fit 100/500/50 UTF-16 code units, points and stock are non-negative, and the URL fits 500 code units |
| `RewardDtos.DefaultIsInvalid` | BussinessLogicLayer/DTOs/Reward/CreateRewardDto.cs:9-17 | a request left at its initial values fails exactly the three `Required` rules, in declaration order |
| `Validation.CollectMembers` | BussinessLogicLayer/DTOs/Reward/CreateRewardDto.cs:7-27 | a value is collected exactly when it is listed and its attribute fails; nothing is collected exactly when no listed attribute fails |
| `Validation.CollectAgrees` | BussinessLogicLayer/DTOs/AppUser/RegisterUserDto.cs:27-31 | two attribute tests that agree on every listed attribute collect the same violations |
| `Validation.Utf16Length` | BussinessLogicLayer/DTOs/Reward/CreateRewardDto.cs:8 | the length `StringLength` checks, in UTF-16 code units: between the character count and twice it, and equal to it when every character is in the Basic Multilingual Plane |
| `Validation.AstralCharactersCountTwice` | BussinessLogicLayer/DTOs/Reward/CreateRewardDto.cs:8 | a character outside the Basic Multilingual Plane counts as two |
| `Registration.FullMatchStep` | BussinessLogicLayer/DTOs/AppUser/RegisterUserDto.cs:16 | a fixed-count pattern matches exactly when its first item matches a prefix and the rest matches the remainder |
| `Registration.DigitsMatch` | BussinessLogicLayer/DTOs/AppUser/RegisterUserDto.cs:16 | eight ASCII digits match `[0-9]{8}` |
| `Registration.ShapeMeaning` | BussinessLogicLayer/DTOs/AppUser/RegisterUserDto.cs:16 | a pattern `01[class]{1}[0-9]{8}` matches exactly the eleven-character strings of that shape |
| `Registration.PhonePatternMeaning` | BussinessLogicLayer/DTOs/AppUser/RegisterUserDto.cs:16 | the pattern as written accepts "01", then one of `0 1 2 , 5`, then eight digits |
| `Registration.IntendedPhonePatternMeaning` | BussinessLogicLayer/DTOs/AppUser/RegisterUserDto.cs:16 | the corrected pattern accepts "01", then one of `0 1 2 5`, then eight digits |
| `Registration.PhoneRuleDiscrepancy` | BussinessLogicLayer/DTOs/AppUser/RegisterUserDto.cs:16 | the rule as written accepts what the corrected one does plus exactly the numbers with a comma third |
| `Registration.PhoneFormatOkAsWritten` | BussinessLogicLayer/DTOs/AppUser/RegisterUserDto.cs:16 | the phone rule as written: a missing or empty value passes; otherwise exactly the strings of "01", one of `0 1 2 , 5`, then eight digits |
| `Registration.PhoneFormatOk` | BussinessLogicLayer/DTOs/AppUser/RegisterUserDto.cs:16 | the corrected phone rule: the same with third character one of `0 1 2 5` |
| `Registration.Violations` | BussinessLogicLayer/DTOs/AppUser/RegisterUserDto.cs:7-25 | the reported violations are exactly the attributes that reject the request, each once |
| `Registration.CommaAccepted` | BussinessLogicLayer/DTOs/AppUser/RegisterUserDto.cs:16 | "01,12345678" passes the rule as written and fails the corrected one |
| `Registration.ValidIff` | BussinessLogicLayer/DTOs/AppUser/RegisterUserDto.cs:7-25 | valid exactly when every required field is non-blank, the name is at most 100 UTF-16 code units, the email passes the email check, the phone is "01", one of `0 1 2 , 5` and eight digits (the rule as written), the password has 6–100 code units, and the confirmation equals it |
| `Registration.IntendedValidIff` | BussinessLogicLayer/DTOs/AppUser/RegisterUserDto.cs:7-25 | the same characterisation under the corrected phone rule, whose third character is one of `0 1 2 5` |
| `Registration.AddressUnconstrained` | BussinessLogicLayer/DTOs/AppUser/RegisterUserDto.cs:27-31 | the address fields never affect validity |
| `Registration.Register` | PresentationLayer/Controllers/AuthController.cs:121-135 | an invalid model state, under the phone rule as written, is the model-state 400; the account service is only reached with matching passwords |
| `Registration.RegisterMismatchUnreachable` | PresentationLayer/Controllers/AuthController.cs:121-129 | the explicit password comparison never fires after model validation; the service is called exactly for DTOs the validator as written accepts |
| `Registration.CommaPhoneRegisters` | PresentationLayer/Controllers/AuthController.cs:121-135 | any registration valid under the corrected rule still reaches the account service with the phone "01,12345678", which the corrected rule rejects |
| `ImageService.UploadErrorKind` | BussinessLogicLayer/Services/ImageService.cs:48-62 | every upload rejection is an `ArgumentException` |
| `ImageService.GetExtension` | BussinessLogicLayer/Services/ImageService.cs:56 | a non-empty extension is a '.' followed by at least one character, ending the path, with no '.' or separator after its dot; an empty one means there is no such dot |
| `ImageService.ExtensionOfName` | BussinessLogicLayer/Services/ImageService.cs:56 | a name ending in '.' and then a run without dots or separators has that run, with its dot, as its extension |
| `ImageService.CheckUpload` | BussinessLogicLayer/Services/ImageService.cs:48-62 | an accepted file is present and non-empty, at most 5 MiB, has a whitelisted lower-cased extension and an `image/` content type |
| `ImageService.UploadChecksInOrder` | BussinessLogicLayer/Services/ImageService.cs:48-62 | each rejection happens exactly when the earlier checks pass and its own fails |
| `ImageService.UploadAtSizeLimit` | BussinessLogicLayer/Services/ImageService.cs:13-14 | a 5 MiB `.PNG` image is accepted, with extension `.png` |
| `ImageService.UploadOneByteOver` | BussinessLogicLayer/Services/ImageService.cs:13 | one byte over 5 MiB is rejected as too large |
| `ImageService.UploadNotAnImage` | BussinessLogicLayer/Services/ImageService.cs:61 | a `text/plain` content type is rejected as not an image |
| `ImageService.UploadExtensionNotAllowed` | BussinessLogicLayer/Services/ImageService.cs:56-58 | a `.bmp` file is rejected for its extension |
| `ImageService.GetBaseUrl` | BussinessLogicLayer/Services/ImageService.cs:26-44 | a non-empty configured URL minus trailing '/', else `scheme://host` of the request, else `https://localhost:44375` |
| `ImageService.SaveRewardImage` | BussinessLogicLayer/Services/ImageService.cs:46-82 | fails exactly when the checks fail; otherwise the URL is base + `/uploads/rewards/` + GUID + extension |
| `ImageService.SavedUrlNamesFile` | BussinessLogicLayer/Services/ImageService.cs:65-98 | the file name taken from a returned URL is the stored file's GUID + extension |
| `ImageService.AllowedExtensionHasNoSeparator` | BussinessLogicLayer/Services/ImageService.cs:14 | no whitelisted extension contains a directory separator |
| `ImageService.AcceptedExtensionHasNoSeparator` | BussinessLogicLayer/Services/ImageService.cs:56-58 | an accepted extension contains no directory separator |
| `ImageService.FileName` | BussinessLogicLayer/Services/ImageService.cs:98-103 | `Path.GetFileName` is the suffix after the last separator and contains none |
| `ImageService.FileNameOfSuffix` | BussinessLogicLayer/Services/ImageService.cs:103 | the file name of `dir/` + a separator-free name is that name |
| `ImageService.IndexOfAny` | BussinessLogicLayer/Services/ImageService.cs:97 | the first position of any of the characters, or the length |
| `ImageService.LocalPath` | BussinessLogicLayer/Services/ImageService.cs:97-98 | a parsed URL's local path starts with '/' |
| `ImageService.ImageFileName` | BussinessLogicLayer/Services/ImageService.cs:94-104 | the name is separator-free; for an `http` URL it exists exactly when the URL parses; otherwise it is always found and is a suffix of the input |
| `ImageService.DeleteRewardImage` | BussinessLogicLayer/Services/ImageService.cs:84-120 | false for a blank URL; true exactly when the URL yields a non-empty file name that exists; never throws |
| `ImageService.DeleteRelativePath` | BussinessLogicLayer/Services/ImageService.cs:100-104 | a non-`http` URL is looked up by its last path component |
| `ImageService.UpdateRewardImage` | BussinessLogicLayer/Services/ImageService.cs:122-132 | deletion is attempted exactly for a non-blank old URL; then the new file is saved |
| `ImageService.RejectedReplacementStillDeletes` | BussinessLogicLayer/Services/ImageService.cs:125-131 | the old image is deleted even when the replacement is rejected |
| `RewardController.ResultForException` | PresentationLayer/Controllers/RewardController.cs:123-134 | `InvalidOperationException` and subclasses → 409; `ArgumentException` and subclasses → 400; anything else → 500 |
| `RewardController.ExceptionStatuses` | PresentationLayer/Controllers/RewardController.cs:182-193 | the status of each exception class, derived classes included |
| `RewardController.CreateImageUrl` | PresentationLayer/Controllers/RewardController.cs:102-117 | with a file, the uploaded URL (or the upload's failure); without one, the form's URL as given |
| `RewardController.CreateRequest` | PresentationLayer/Controllers/RewardController.cs:110-118 | the service request carries the form's fields unchanged and the chosen URL |
| `RewardController.Create` | PresentationLayer/Controllers/RewardController.cs:88-135 | an invalid model state gives 400 with no call; a rejected upload gives 400 without calling the service; otherwise the service gets the request and its result or exception decides the status |
| `RewardController.UploadedUrlWinsOnCreate` | PresentationLayer/Controllers/RewardController.cs:105-117 | with a file, the form's URL has no effect at all |
| `RewardController.GivenUrlUsedOnCreate` | PresentationLayer/Controllers/RewardController.cs:117 | without a file, the form's URL reaches the service as given |
| `RewardController.KeptOrGivenUrl` | PresentationLayer/Controllers/RewardController.cs:152-165 | the result is the stored URL or the form's; a blank form URL keeps the stored one |
| `RewardController.UpdateRequest` | PresentationLayer/Controllers/RewardController.cs:167-177 | the service request carries the form's fields unchanged and the chosen URL |
| `RewardController.UpdateExisting` | PresentationLayer/Controllers/RewardController.cs:152-180 | without a file, exactly one update call with the kept or given URL, and the service's result or exception decides the status; with one, the replacement first, then 400 with no update on rejection, or an update with the new URL whose result or exception decides the status |
| `RewardController.Update` | PresentationLayer/Controllers/RewardController.cs:140-194 | an id mismatch gives 400 before any call; the lookup comes first; a missing reward gives 404 with nothing else called |
| `RewardController.UploadedUrlWinsOnUpdate` | PresentationLayer/Controllers/RewardController.cs:155-159 | with a file, the form's URL has no effect on the calls or on the result |
| `RewardController.UpdateKeepsOrReplacesUrl` | PresentationLayer/Controllers/RewardController.cs:152-165 | without a file, a blank or unchanged URL keeps the stored one; a different non-blank URL replaces it |
| `RewardController.UpdateForwardsFields` | PresentationLayer/Controllers/RewardController.cs:167-177 | points, stock and availability reach the service as posted, under the route id |
| `RewardController.RejectedUploadDeletesStoredImage` | PresentationLayer/Controllers/RewardController.cs:155-159 | a rejected replacement ends in 400 with the old image already deleted and the reward never updated, so it still points at the deleted file |
| `Orders.ToDto` | BussinessLogicLayer/Services/OrderService.cs:19-33 | the status name parses back to the status; names are present only for loaded references |
| `Orders.ToDtos` | BussinessLogicLayer/Services/OrderService.cs:92 | `Select(o => ToDto(o))` gives one DTO per order, in order, each with the order's key and a status name that parses back to the order's status |
| `Orders.ToEntity` | BussinessLogicLayer/Services/OrderService.cs:35-46 | succeeds exactly when the status parses, else `ArgumentException`; the new order has no materials |
| `Orders.ToEntityOfToDto` | BussinessLogicLayer/Services/OrderService.cs:19-46 | mapping out and back reproduces every column; only the materials are lost |
| `Orders.UpdateEntityFromDto` | BussinessLogicLayer/Services/OrderService.cs:48-55 | succeeds exactly when the status parses; key and materials are kept |
| `Orders.UpdateAgreesWithToEntity` | BussinessLogicLayer/Services/OrderService.cs:35-55 | updating equals building afresh, except the key and materials are kept |
| `Orders.UpdateFromOwnDto` | BussinessLogicLayer/Services/OrderService.cs:19-55 | writing back an order's own DTO changes nothing |
| `Orders.NewMaterial` | BussinessLogicLayer/Services/OrderService.cs:113-118 | a created material has the type, the quantity as size, price 0 and no factory |
| `Orders.StageMaterial` | BussinessLogicLayer/Services/OrderService.cs:108-124 | the first material of the type is reused with its size overwritten, else one is appended under a fresh key; either way a material of that type and size has the order's key |
| `Orders.AppendedOrderIsFound` | BussinessLogicLayer/Services/OrderService.cs:142-146 | an order appended under a fresh key is what the lookup by that key loads |
| `Orders.PlanAdd` | BussinessLogicLayer/Services/OrderService.cs:95-148 | unknown email → `KeyNotFoundException`, bad type → `ArgumentException`, no factory → `InvalidOperationException`, each saving nothing; otherwise one pending order for the first matching user and first factory with the staged material |
| `Orders.SaveNewOrder` | BussinessLogicLayer/Services/OrderService.cs:133-147 | the saved tables and returned DTO of a successful `AddAsync` |
| `Orders.AddedOrderLoadsBack` | BussinessLogicLayer/Services/OrderService.cs:146-147 | the returned DTO is that of the order the lookup by its new key loads |
| `Orders.AddReusesMaterial` | BussinessLogicLayer/Services/OrderService.cs:121-124 | an existing material is overwritten in place; no other material changes |
| `Orders.OrderService.constructor` | BussinessLogicLayer/Services/OrderService.cs:13-16 | an empty store over given users and factories satisfies the key invariant |
| `Orders.OrderService.GetOrdersByStatusAsync` | BussinessLogicLayer/Services/OrderService.cs:88-93 | a string that is not a status name is `ArgumentException`; otherwise one DTO per order the status query returns, same ids, each showing the requested status |
| `Orders.OrderService.CompleteOrder` | BussinessLogicLayer/Services/OrderService.cs:174-211 | unknown id → `KeyNotFoundException`; not `Pending` or no user → `InvalidOperationException`; a failing commit → the exception the commit threw, rethrown after the rollback; on every failure the tables are as before; on success only that order becomes `Completed` and only its user gains the points, wrapped to `int` |
| `Orders.OrderService.CancelOrder` | BussinessLogicLayer/Services/OrderService.cs:216-232 | unknown id → `false`, nothing changes; `Completed` → `InvalidOperationException`, nothing changes; otherwise only that order becomes `Cancelled`; users never change |
| `Orders.OrderService.Add` | BussinessLogicLayer/Services/OrderService.cs:95-148 | the result and new tables are exactly those of `PlanAdd`; users and factories unchanged; the key invariant is kept |
| `Orders.OrderService.SaveOrder` | BussinessLogicLayer/Services/OrderService.cs:142-147 | appends the order under the next key, stores the staged materials, and returns the DTO of the appended order with its references resolved (by `AddedOrderLoadsBack`, what the reload returns) |
| `Orders.OrderService.Update` | BussinessLogicLayer/Services/OrderService.cs:150-159 | unknown id → `KeyNotFoundException`; a bad status → `ArgumentException`; both change nothing; otherwise only that row is replaced by `UpdateEntityFromDto`, with no transition check |
| `Orders.OrderService.Delete` | BussinessLogicLayer/Services/OrderService.cs:161-169 | unknown id → `KeyNotFoundException`; otherwise exactly that order is removed, the rest keeping their order |
| `Orders.OrderService.CompleteTwice` | BussinessLogicLayer/Services/OrderService.cs:186-187 | after a successful completion, a second one is rejected and awards nothing |

## Left out

- `DotNet.ToLowerInvariant`: it lower-cases ASCII letters only. Non-ASCII case mappings are not modelled.
- The string operations are ordinal:
  - `StartsWith("image/")` and `StartsWith("http")` use the current culture in .NET.
  - `Enum.Parse` is modelled on status names only.
- `Entities.ParseStatus`: `Enum.Parse` also accepts numeric strings such as `"1"` and comma-separated lists of names such as `"Pending, Completed"`, whose values it combines bitwise; the model rejects them. So `ToEntity`, `UpdateEntityFromDto`, `OrderService.Update` and `GetOrdersByStatusAsync` report `ArgumentException` for such a status, which the source accepts.
- `ImageService.FileName` follows Windows `Path.GetFileName`: both '/' and '\\' are separators. A volume prefix such as `C:` is not stripped, and on Linux .NET only '/' separates.
- `ImageService.LocalPath` approximates `System.Uri`. It takes everything after `scheme://` and the authority, up to `?` or `#`. It does no percent-decoding or dot-segment removal. It treats a URL without `://` as one the constructor rejects.
- File writes and deletions are not modelled. `DeleteRewardImage` takes a `fileExists` predicate and assumes an existing file is deleted. An I/O failure during deletion, which the source also maps to `false`, is not modelled.
- GUID generation, the clock, configuration and the HTTP context are parameters.
- `PointsCalculator.CalculateOrderPoints` is not part of this model. It is a parameter with no assumed sign. The calculator throwing is not modelled.
- Transactions are snapshot-and-restore of the order and user tables. Isolation, locking and concurrent requests are not modelled.
- `CancelOrder`, `Add`, `Update` and `Delete` assume `SaveChangesAsync` succeeds. Foreign-key failures on save are not modelled.
- The `MaterialType` enum and `MaterialRepository.GetMaterialsByTypeAsync` are not part of this model:
  - the type-name parse is a parameter;
  - the repository is assumed to return the materials whose `TypeName` equals the parsed name, in storage order.
- `CreateOrderDto`, the `OrderDto` carrying names, `RewardDto`, `CreateRewardWithImageDto`, `UpdateRewardWithImageDto` and `UpdateRewardDto` are not part of the source files modelled. Their fields are taken from how the service and controller use them.
- `OrderRepository.GetOrdersByUserId`: the `UserId` comparison runs in the database, under its collation. SQL Server's default collation ignores case and trailing spaces, so `"ABC"` or `"abc "` finds the orders of user `"abc"`. The model compares ids ordinally, sensitive to case and trailing blanks.
- `OrderRepository.GetOrdersByCollectorId`: the same collation difference applies to the `CollectorId` comparison. The user lookups behind `Include` (`UserIndex`, `FindUser`) are database joins that compare ids ordinally in the model too.
- `RewardRepository.GetRewardWithHistory`: the `ThenInclude` that loads each history row's `User` is not modelled. History rows carry only the user's id.
- The list queries of `OrderRepository` return the order rows. Their `Include` of navigation properties is modelled once, in `Include`, for the detail lookup.
- `RewardController.Create`: the attributes behind `ModelState.IsValid` for the image form are not part of this model, so validity is a parameter. The automatic model validation of `[ApiController]` before `Update` is not modelled.
- Only the reward controller's `Create` and `Update` are modelled. Its other actions forward to services outside this model. Reward redemption, stock updates and `RewardService` itself are not part of this model.
- The read-only service methods `GetAllAsync`, `GetByIdAsync`, `GetOrdersByUserIdAsync`, `GetOrdersByCollectorIdAsync` and `GetOrdersByFactoryIdAsync` of `OrderService` only map repository results through `ToDto`. They are covered by the repository functions and `ToDto`. `GetOrdersByStatusAsync`, which parses its argument first, is modelled.
- `Linq.OrderBy`: the source's `OrderBy` runs as SQL `ORDER BY`, which leaves the order of equal keys unspecified. The model's `OrderBy` computes one particular order, and its contract promises only what SQL does: sorted by the key, and a permutation.
- `Material.Size` (`double`) and `Price` (`decimal`) are opaque values that are only copied.

## Findings

| source | as written | input that shows it | evidently intended | confidence | as-written member | corrected member |
|---|---|---|---|---|---|---|
| BussinessLogicLayer/DTOs/AppUser/RegisterUserDto.cs:16 | `^01[0-2,5]{1}[0-9]{8}$`: inside a character class the comma is a literal, so the third character may be `,` | `"01,12345678"` passes phone validation | `^01[0-25][0-9]{8}$`, i.e. the prefixes 010, 011, 012 and 015 | high (not executed) | `Registration.CommaPhoneRegisters` | `Registration.IntendedValidIff` |

The validator, `Registration.Violations` with `AsWritten`, and `Registration.Register` apply the rule as written. The corrected rule is the `Intended` instance of the same validator. `Registration.PhoneRuleDiscrepancy` states the exact difference between the two.
