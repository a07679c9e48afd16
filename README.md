# Rhubarb core, modelled in Dafny

This project models four parts of the Rhubarb PHP framework and its
client-side validation script, and proves what they promise.

- **The asset catalogue** (`Assets`, `Jwt`). A registry maps each asset category to the class of the provider that stores it. The empty category `""` is the default. The asset's token is a JWT signed with HS256.
  - `getProvider` resolves a category to a provider bound to that category.
  - `createToken` signs the claims `{iat, provider, category, data}`.
  - `getAsset` verifies a token and rebuilds the asset: its provider and its data.
  - `storeAsset` picks the stored name and the MIME type, then asks the provider to create the asset.
- **The client-side validators** (`JsValues`, `Validation`). A `Validator` runs its child validations over a model. It collects the errors of the children that fail, in order. It throws when any child fails (`validateAll`) or when none passes.
  - The leaf rules are `EqualTo`, `EqualToModelProperty`, `ExactLength`, `HasValue`, `GreaterThan` and `LessThan`.
  - `Validator.fromJson` builds a validator tree from its JSON description.
  - JavaScript values, property access, truthiness, loose equality and relational comparison are modelled as far as these rules need them.
- **The HTTP response** (`Headers`, `Responses`). A `Response` object holds an ordered header array, its content, a status code and a status message.
  - The object has setters and getters for each of these.
  - Sending a response emits a list of header lines: the status line, then one line per header.
- **The relocation deployment provider** (`Deployment`). It copies a resource into the public `deployed` folder when the copy is missing or stale. It returns the URL the resource is served at, with a cache-busting query for `.js` and `.css` files, and remembers that URL for the path it was asked for. It can also write generated content into the folder.
  - The filesystem is a `FileSystem` object. It holds a map from path to entry (a file with its modification time and content, or a directory) and a fixed environment.
  - The environment gives `realpath` as a partial map, the set of paths where creating or writing fails, and the clock that stamps new entries.

Operations that change state in the source are methods of classes:
- `AssetCatalogue` holds the static provider map;
- `Response` holds the response's fields;
- `RelocationResourceDeploymentProvider` holds the URL cache;
- `FileSystem` holds the files.

Each such method's `ensures` gives its whole new state. It states the new state either directly, or as a function of the old state whose properties are proved as lemmas. The loops of `Validator.validate`, `Validator.fromJson` and `processHeaders` are `for` loops with invariants. `Validate` and `FromJson` are proved equal to the recursive specifications `Run` and `ParseValidator`.

Decisions where the model differs from a literal reading:
- **Loose equality.** `EqualTo`, `EqualToModelProperty`, `ExactLength` and `HasValue` use JavaScript's `==` and `!=`. The model implements loose equality over its value domain instead of strict equality. As a result, `HasValue` rejects `"0"` and `false` and lets `undefined` through, as the code does.
- **Signatures are symbolic.** The JWT library's signature is a symbolic term that records the algorithm, the key and the signed payload, acting as a perfect MAC. The facts the catalogue relies on are proved from this term: a token decodes under its own key (`Jwt.DecodeEncode`) and under no other key (`Jwt.DecodeOtherKey`).

## Model

| member | source | states |
|---|---|---|
| Jwt.Sign | src/Assets/AssetCatalogueProvider.php:153 | the HS256 signature stand-in: a term recording the algorithm, the key and the signed claims, equal only for equal triples |
| Jwt.Encode | src/Assets/AssetCatalogueProvider.php:153 | an encoded token is a compact HS256 token carrying the given claims |
| Jwt.Decode | src/Assets/AssetCatalogueProvider.php:169 | decoding succeeds iff the key is non-empty, the token parses, its algorithm is allowed and its signature is the key's signature of its payload; it then yields the payload |
| Jwt.DecodeEncode | src/Assets/AssetCatalogueProvider.php:153-169 | a token decodes under the key that signed it to the claims it was made from |
| Jwt.DecodeOtherKey | src/Assets/AssetCatalogueProvider.php:153-169 | a token never decodes under a different key |
| Jwt.TamperedPayloadRejected | src/Assets/AssetCatalogueProvider.php:169 | a token whose claims differ from the ones its signature covers is rejected |
| Assets.GetJwtKey | src/Assets/AssetCatalogueProvider.php:99-109 | the key is returned iff it is non-empty; an empty key is the "no token key" error |
| Assets.Resolve | src/Assets/AssetCatalogueProvider.php:198-211 | resolution succeeds iff the category or the default "" is registered; it uses the category's own class before the default's; the provider is bound to the requested category; otherwise it fails with the missing-mapping error for that category |
| Assets.RegisterThenResolve | src/Assets/AssetCatalogueProvider.php:186-189 | after registering a class for a category, the category resolves to that class, bound to it (last write wins) |
| Assets.RegisterKeepsOtherCategories | src/Assets/AssetCatalogueProvider.php:186-206 | registering one category leaves the resolution of every other category unchanged; the one exception is a default registration seen by unregistered categories |
| Assets.RegisterDefaultServesUnregistered | src/Assets/AssetCatalogueProvider.php:202-203 | after a default registration, every unregistered category resolves to the default class, bound to itself |
| Assets.RegisterIsMonotone | src/Assets/AssetCatalogueProvider.php:186-206 | registration never makes a resolvable category unresolvable |
| Assets.CreateToken | src/Assets/AssetCatalogueProvider.php:142-156 | a token is created iff the key is non-empty, and then decodes to {iat, provider class, provider category, data}; an empty key is the "no token key" error |
| Assets.GetAsset | src/Assets/AssetCatalogueProvider.php:165-178 | an empty key fails before decoding; a rejected token propagates the decode error; otherwise the asset holds the token, a provider of the token's class bound to the token's category, and the token's data |
| Assets.TokenRoundTrip | src/Assets/AssetCatalogueProvider.php:142-178 | rebuilding an asset from a provider's token under the same key gives that token, the same provider class and category, and the same data |
| Assets.TokenRejectedUnderOtherKey | src/Assets/AssetCatalogueProvider.php:142-178 | a token issued under one key is rejected under any other |
| Assets.StoredName | src/Assets/AssetCatalogueProvider.php:54 | the name an asset is stored under: storeAs unless it is "", else the file's base name |
| Assets.IsCsvName | src/Assets/AssetCatalogueProvider.php:57 | `/\.csv$/i`: the name ends in ".csv" in any letter case, also just before a final line break |
| Assets.MimeType | src/Assets/AssetCatalogueProvider.php:52-63 | text/csv for a CSV name, else the sniffed type, else application/octet-stream |
| Assets.CsvExtensionInAnyCase | src/Assets/AssetCatalogueProvider.php:57-58 | a name ending in ".csv" in any letter case, with or without a final line break, is a CSV name and gets text/csv |
| Assets.NonCsvMimeType | src/Assets/AssetCatalogueProvider.php:52-64 | a non-CSV name gets the sniffed type, or application/octet-stream when nothing was sniffed |
| Assets.AssetCatalogue.constructor | src/Assets/AssetCatalogueProvider.php:30 | the registry starts empty |
| Assets.AssetCatalogue.SetProviderClassName | src/Assets/AssetCatalogueProvider.php:186-189 | the category now maps to the class and every other entry is unchanged |
| Assets.AssetCatalogue.GetProvider | src/Assets/AssetCatalogueProvider.php:198-211 | returns exactly what `Resolve` gives for the current registry |
| Assets.AssetCatalogue.StoreAsset | src/Assets/AssetCatalogueProvider.php:49-84 | the name is storeAs when non-empty, else the base name; a missing provider mapping or a provider error propagates; otherwise the provider receives {name, size, MIME type, category} and the created asset gets the chosen MIME type |
| Strings.StrReplace | src/Deployment/RelocationResourceDeploymentProvider.php:72 | `str_replace` with one search string: every non-overlapping occurrence, scanning from the left, is replaced; an empty search leaves the subject unchanged |
| Strings.EndsWithCaseless | src/Assets/AssetCatalogueProvider.php:57 | the suffix test of a `/…$/i` pattern, comparing ASCII letters without case |
| Strings.IntToString | src/Response/Response.php:126 | PHP's decimal rendering of an integer in string concatenation, with a leading "-" for negatives |
| Strings.StrReplaceLeading | src/Deployment/RelocationResourceDeploymentProvider.php:72 | `str_replace` replaces a leading occurrence and continues after it |
| Strings.StrReplaceAbsent | src/Deployment/RelocationResourceDeploymentProvider.php:72 | `str_replace` leaves a subject without the search string unchanged |
| Strings.StrReplaceChar | src/Deployment/RelocationResourceDeploymentProvider.php:72 | replacing one character by another maps each position independently and keeps the length |
| Strings.StrReplaceCharRemovesAll | src/Deployment/RelocationResourceDeploymentProvider.php:72 | replacing a character by a different one leaves no occurrence of it |
| Strings.LTrim | src/Deployment/RelocationResourceDeploymentProvider.php:40 | `ltrim` returns the suffix left after removing every leading occurrence of the character |
| Strings.NatToString | src/Response/Response.php:126 | a number prints as a non-empty run of decimal digits |
| Strings.NatToStringRoundTrip | src/Response/Response.php:126 | the printed digits read back as the number |
| JsValues.Truthy | resources/validation.js:112-116 | JavaScript truthiness: undefined, null, false, 0 and "" are falsy, everything else truthy |
| JsValues.PropertyKey | resources/validation.js:102 | `String(v)`, the property name `model[v]` looks up |
| JsValues.ToNumber | resources/validation.js:243 | `Number(v)` as relational operators convert operands: null is 0, booleans 0/1, a digit string its value, "" 0, anything else NaN |
| JsValues.LooseEquals | resources/validation.js:162 | `a == b`: undefined and null equal only each other, booleans and strings meet numbers by numeric conversion, two strings by content |
| JsValues.JsLess | resources/validation.js:243 | `a < b`: two strings by their UTF-16 code units (`StrLess`), otherwise both converted to numbers, undefined when either is NaN |
| JsValues.Lt | resources/validation.js:258 | `a < b` is true |
| JsValues.Gt | resources/validation.js:243 | `a > b` is true |
| JsValues.Le | resources/validation.js:258 | `a <= b` is true: `b < a` is defined and false |
| JsValues.Ge | resources/validation.js:243 | `a >= b` is true: `a < b` is defined and false |
| JsValues.Get | resources/validation.js:102 | property access throws a TypeError exactly on undefined and null; on an object it gives the first property of that name, or undefined; a string's `length` is its number of UTF-16 code units |
| JsValues.CodeUnits | resources/validation.js:196 | a character is one code unit, itself, inside the Basic Multilingual Plane and a high then a low surrogate beyond it |
| JsValues.CodeUnitsDecode | resources/validation.js:196 | a character's code units decode back to its code point |
| JsValues.Utf16 | resources/validation.js:196 | a string's code units are at least as many as its characters |
| JsValues.Utf16Append | resources/validation.js:196 | the code units of a concatenation are the two parts' code units in turn |
| JsValues.Utf16LengthBmp | resources/validation.js:196 | `length` equals the number of characters iff no character lies beyond the Basic Multilingual Plane |
| JsValues.Utf16Injective | resources/validation.js:162 | two strings have the same code units iff they are equal, so comparing by content is comparing code units |
| JsValues.UnitAt | resources/validation.js:102 | `s[i]` for a code-unit index is a one-character string whose code unit is the indexed one, when that unit is not a surrogate |
| JsValues.UnitsLessTotal | resources/validation.js:243 | code-unit order is irreflexive, and of two distinct strings exactly one is less |
| JsValues.NonBmpStrings | resources/validation.js:196 | "\U{1F600}" has length 2 and sorts before "\U{FFFD}" |
| JsValues.Lookup | resources/validation.js:102 | a found value belongs to a property of that name; a missing name is on no property |
| JsValues.LooseEqualsSymmetric | resources/validation.js:162 | `==` is symmetric, and between two numbers, two strings or two booleans it is plain equality |
| JsValues.ComparisonsOnNumbers | resources/validation.js:243 | on numbers, `<`, `>`, `<=` and `>=` are the integer orderings |
| JsValues.ComparisonsWithUndefined | resources/validation.js:243 | every comparison with undefined is false |
| Validation.Run | resources/validation.js:92-264 | the verdict of `validate` for every modelled rule: each leaf rule throws its ValidationError when its test fails, and a Validator throws with its children's errors as validateAll decides |
| Validation.GreaterThanVerdict | resources/validation.js:242-248 | `GreaterThan.validate`: passes when the value is above the bound, or reaches it with settings.equalTo truthy; nullish settings raise a TypeError |
| Validation.LessThanVerdict | resources/validation.js:257-263 | `LessThan.validate`: passes when the value is below the bound, or reaches it with settings.equalTo truthy; nullish settings raise a TypeError |
| Validation.ChildVerdict | resources/validation.js:101-109 | one child's outcome: it validates the model's property of the child's name, and a failed property read is caught as the child's error |
| Validation.ChildErrors | resources/validation.js:98-110 | the errors the loop records, one per failing child, in the children's order |
| Validation.ChildErrorsAppend | resources/validation.js:98-110 | the errors of two runs of children are collected in order, one run after the other |
| Validation.ChildErrorsSingle | resources/validation.js:101-108 | a child contributes its error when it throws and nothing when it passes |
| Validation.ChildErrorsCount | resources/validation.js:98-110 | at most one error per child; no errors iff every child passes; one per child iff every child fails |
| Validation.ValidateAllFailsIffSomeChildFails | resources/validation.js:112-114 | with validateAll, a Validator throws iff some child throws |
| Validation.ValidateAnyFailsIffNoChildPasses | resources/validation.js:116-118 | without validateAll, a Validator throws iff no child passes; an empty one always throws |
| Validation.ValidatorErrorCarriesChildErrors | resources/validation.js:93-109 | the thrown error has the validator's name and "The following errors occurred:"; its sub-errors are exactly the failing children's errors, in order |
| Validation.GreaterThanOnNumbers | resources/validation.js:243 | a number passes iff it is above the bound, or equal to it with equalTo set |
| Validation.LessThanOnNumbers | resources/validation.js:258 | a number passes iff it is below the bound, or equal to it with equalTo set |
| Validation.ComparisonWithoutSettings | resources/validation.js:243-258 | a comparison rule without settings throws a TypeError |
| Validation.ExactLengthOnSequences | resources/validation.js:196 | a string or array passes iff its length, in UTF-16 code units for a string, equals the expected number |
| Validation.ExactLengthOnNullish | resources/validation.js:196 | undefined and null throw a TypeError |
| Validation.EqualToModelPropertyMeaning | resources/validation.js:179 | the value passes iff it loosely equals the model's named property |
| Validation.EqualToMeaning | resources/validation.js:162 | a string passes iff it equals the configured string |
| Validation.HasValueCases | resources/validation.js:211 | null, "", "0", 0 and false throw; undefined and true pass |
| Validation.HasValueOnNumbers | resources/validation.js:211 | a number passes iff it is non-zero |
| Validation.Validate | resources/validation.js:92-121 | the loop over the children gives the verdict of the recursive definition |
| Validation.Construct | resources/validation.js:146-264 | construction succeeds iff the type names a modelled rule and, for types that read settings in the constructor, the settings are not nullish; otherwise it raises the unmodelled-constructor error or a TypeError; the name is kept and the failed message is "" |
| Validation.ForInValues | resources/validation.js:133-134 | for-in visits an array's elements and an object's own values in order, nothing for undefined, null, booleans and numbers; a non-empty string fails with a TypeError; every visited value is shallower than the collection |
| Validation.Label | resources/validation.js:144-149 | relabelling sets the name and failed message and keeps the kind of validation |
| Validation.LabelKeepsRule | resources/validation.js:144-149 | relabelling changes nothing but the name and the message |
| Validation.ParseValidator | resources/validation.js:127-154 | a parsed JSON gives a Validator named json.name with failed message ""; a nullish JSON fails with a TypeError |
| Validation.ParseValidatorMeaning | resources/validation.js:131-151 | the parsed validator's validateAll is settings.validateAll and its children are the parsed entries of settings.validations |
| Validation.ParseItemMeaning | resources/validation.js:134-149 | an entry of type "validator" is parsed recursively, any other type is constructed; both are labelled with the entry's name and failed message; nullish entries throw a TypeError |
| Validation.ParseItems | resources/validation.js:133-151 | the children `fromJson` builds: every entry parsed in order, or the first error thrown |
| Validation.ParseResults | resources/validation.js:133-151 | each entry's own parse outcome, in order |
| Validation.ParseItem | resources/validation.js:134-149 | one entry: its type is read (a TypeError on a nullish entry), the validation it selects is built and labelled with the entry's name and failedMessage |
| Validation.ParseTyped | resources/validation.js:142-147 | the type "validator" (loosely compared) parses the settings recursively; any other type calls the constructor of that name |
| Validation.Collect | resources/validation.js:133-151 | the values of the outcomes in order, or the first error, as the throwing loop gives them |
| Validation.ParseItemsOk | resources/validation.js:133-151 | the entries parse iff every entry parses, and then in order, one child per entry |
| Validation.ParseItemsFirstError | resources/validation.js:133-151 | a failed parse reports the error of the first failing entry |
| Validation.CollectSnoc | resources/validation.js:136-150 | taking one more entry's outcome extends the collected values, or keeps the first error |
| Validation.CollectOk | resources/validation.js:133-151 | collecting the entries' outcomes succeeds iff every outcome succeeds, and then gives one value per outcome, in order |
| Validation.CollectFirstError | resources/validation.js:133-151 | a failed collection reports the error of the first failing outcome |
| Validation.CollectErrPrefix | resources/validation.js:133-151 | once the outcomes up to some entry fail, the whole collection fails with that error, so the loop may stop there |
| Validation.CollectValues | resources/validation.js:133-151 | outcomes that all succeed collect to exactly their values |
| Validation.ForInStringFails | resources/validation.js:133-146 | a string's one-character entries have no type and fail to construct |
| Validation.FromJson | resources/validation.js:127-154 | the loop builder gives exactly the result of the recursive definition |
| Validation.ValidatorJsonRoundTrip | resources/validation.js:127-154 | parsing a validator's JSON description gives back its name, validateAll and children, in order, with their names and messages |
| Validation.EntryParse | resources/validation.js:134-149 | an entry of a given type is parsed as a nested validator for "validator", else by that type's constructor, and labelled with its name and message |
| Validation.ConstructRoundTrip | resources/validation.js:156-264 | the constructor an entry's type names rebuilds the rule from the entry's settings |
| Validation.EntryJsonRoundTrip | resources/validation.js:134-149 | one entry parses back to the validation it describes |
| Validation.EntriesJsonRoundTrip | resources/validation.js:133-151 | a list of entries parses back to the validations it describes, in order |
| Headers.Names | src/Response/Response.php:129 | the header names in array order |
| Headers.Distinct | src/Response/Response.php:80 | no name occurs twice, as in every PHP array |
| Headers.Find | src/Response/Response.php:80 | `$headers[$name]`, or nothing when the name is not a key |
| Headers.Put | src/Response/Response.php:80 | `$headers[$name] = $value`: replaces the value in place when the name is a key, else appends it |
| Headers.Remove | src/Response/Response.php:91 | `unset($headers[$name])`: drops the entry and keeps the others in order |
| Headers.FindMeaning | src/Response/Response.php:80 | a name is found iff it is a key, and then with the value of an entry of that name |
| Headers.PutFind | src/Response/Response.php:78-81 | after assignment the name has the value and every other name keeps its own |
| Headers.PutNames | src/Response/Response.php:80 | assignment keeps every name in place and appends a new name at the end |
| Headers.PutDistinct | src/Response/Response.php:80 | assignment keeps the names distinct |
| Headers.RemoveFind | src/Response/Response.php:88-93 | after unset the name is gone and every other name keeps its value |
| Headers.RemoveAbsent | src/Response/Response.php:90 | unsetting a name that is not a key changes nothing |
| Headers.RemoveNames | src/Response/Response.php:91 | unset keeps exactly the other names |
| Headers.RemoveDistinct | src/Response/Response.php:91 | unset keeps the names distinct |
| Headers.RemoveAt | src/Response/Response.php:91 | unsetting a key removes its one entry and keeps the rest in order |
| Headers.PutPut | src/Response/Response.php:80 | the last assignment to a name wins |
| Headers.PutThenRemove | src/Response/Response.php:80-91 | assigning then unsetting a name is the same as unsetting it alone |
| Responses.StatusLine | src/Response/Response.php:126 | "HTTP/1.1 ", the code, a space and the message, a null message printing as nothing |
| Responses.HeaderLine | src/Response/Response.php:130 | "name: value" |
| Responses.Response.constructor | src/Response/Response.php:54-60 | a new response has exactly the header Content-Type: text/plain, no content, code 200 and no message |
| Responses.Response.SetHeader | src/Response/Response.php:78-81 | the name now has the value, every other header is unchanged, the names stay distinct, and the other fields are unchanged |
| Responses.Response.UnsetHeader | src/Response/Response.php:88-93 | the name is removed; an absent name leaves the headers unchanged; other headers and fields are unchanged |
| Responses.Response.GetHeaders | src/Response/Response.php:100-103 | returns the header array |
| Responses.Response.ClearHeaders | src/Response/Response.php:108-111 | no header is left and nothing else changes |
| Responses.Response.SetContent | src/Response/Response.php:139-142 | only the content changes |
| Responses.Response.GetContent | src/Response/Response.php:151-154 | returns the content |
| Responses.Response.FormatContent | src/Response/Response.php:180-183 | the base response formats its content as itself |
| Responses.Response.SetResponseCode | src/Response/Response.php:198-201 | only the code changes |
| Responses.Response.GetResponseCode | src/Response/Response.php:189-192 | returns the code |
| Responses.Response.SetResponseMessage | src/Response/Response.php:218-221 | only the message changes |
| Responses.Response.GetResponseMessage | src/Response/Response.php:208-211 | returns the message |
| Responses.Response.HeaderLines | src/Response/Response.php:123-132 | the status line "HTTP/1.1 code message" comes first iff the code is non-zero; then one "name: value" line per header, in array order |
| Responses.ContentRoundTrip | src/Response/Response.php:139-183 | content set is the content got and the content formatted |
| Responses.StatusRoundTrip | src/Response/Response.php:189-221 | code and message round-trip through their setters and getters without affecting each other or the headers |
| Responses.DefaultLines | src/Response/Response.php:54-132 | a new response emits "HTTP/1.1 200 " and "Content-Type: text/plain" |
| Deployment.Dirname | src/Deployment/RelocationResourceDeploymentProvider.php:75 | PHP `dirname` for '/'-separated paths: the path without its last component, "." without a slash, "/" at the top |
| Deployment.UrlPath | src/Deployment/RelocationResourceDeploymentProvider.php:72 | "/deployed" and the resolved path with the root removed and every '\\' turned into '/' |
| Deployment.LocalPath | src/Deployment/RelocationResourceDeploymentProvider.php:73 | where the copy is written: the root followed by the URL path |
| Deployment.ScriptExtension | src/Deployment/RelocationResourceDeploymentProvider.php:89 | the ".js" or ".css" ending the pattern captures at the end of the path, also just before a final line break |
| Deployment.CacheBust | src/Deployment/RelocationResourceDeploymentProvider.php:89-91 | the query a script or style sheet gets: "?", the modification time and the extension; nothing for other files |
| Deployment.NeedsCopy | src/Deployment/RelocationResourceDeploymentProvider.php:81 | the copy is due when there is no deployed copy or the resource is newer than it |
| Deployment.DeployedUrl | src/Deployment/RelocationResourceDeploymentProvider.php:31-43 | the remembered URL, or "/deployed/" and the root-stripped, slash-normalised resolved path without its leading slashes |
| Deployment.CanWrite | src/Deployment/RelocationResourceDeploymentProvider.php:82 | where `copy` and `file_put_contents` can write: a path that is not locked and not a directory |
| Deployment.DeployResolved | src/Deployment/RelocationResourceDeploymentProvider.php:59-91 | the deployment of a resolved path: the deployed folder, the readability check, the copy's folder, the copy when stale and the URL with its query, stopping at the first failure |
| Deployment.DeploySpec | src/Deployment/RelocationResourceDeploymentProvider.php:45-96 | `deployResource`: a remembered path returns its URL, an unresolvable one fails, any other is deployed and a successful URL is remembered for the path asked for |
| Deployment.ContentSpec | src/Deployment/RelocationResourceDeploymentProvider.php:98-121 | `deployResourceContent`: the two folders, the write, and failure when nothing was written |
| Deployment.DirnameOfJoin | src/Deployment/RelocationResourceDeploymentProvider.php:108 | the directory of dir/name is dir |
| Deployment.DirnameShorter | src/Deployment/RelocationResourceDeploymentProvider.php:75 | the directory of a path of two or more characters is shorter than the path |
| Deployment.MkdirIfMissing | src/Deployment/RelocationResourceDeploymentProvider.php:59-79 | the step fails iff the folder is missing and cannot be created; on success the folder exists, every existing entry is kept, and nothing else is added |
| Deployment.CachedPathUnchanged | src/Deployment/RelocationResourceDeploymentProvider.php:47-49 | a remembered path returns its URL and leaves the cache and the files unchanged |
| Deployment.UnresolvedPathFails | src/Deployment/RelocationResourceDeploymentProvider.php:53-57 | a path realpath cannot resolve fails and changes nothing |
| Deployment.DeployCachesOnlyTheResult | src/Deployment/RelocationResourceDeploymentProvider.php:93 | a failure leaves the cache unchanged; a success maps the original path to the returned URL and changes no other entry |
| Deployment.DeployedUrlShape | src/Deployment/RelocationResourceDeploymentProvider.php:72-91 | a fresh URL is "/deployed" plus the root-stripped, slash-normalised resolved path, followed by the cache-busting query for its modification time |
| Deployment.LocalPathIsNoFolderCreated | src/Deployment/RelocationResourceDeploymentProvider.php:59-79 | the local copy's path is neither the deployed folder nor its own directory |
| Deployment.CopyOnlyWhenStale | src/Deployment/RelocationResourceDeploymentProvider.php:81-87 | the copy is made iff the local copy is missing or older than the resource; otherwise the local copy is left as it was |
| Deployment.CacheBustScripts | src/Deployment/RelocationResourceDeploymentProvider.php:89-91 | a name ending in ".js" or ".css", also before a final line break, gets "?" + mtime + that extension |
| Deployment.CacheBustOthers | src/Deployment/RelocationResourceDeploymentProvider.php:89-91 | a name ending in none of ".js", ".js\n", ".css" and ".css\n" has no script extension and gets no query; in particular one whose last character is neither 's' nor a line break |
| Deployment.AppendCacheBust | src/Deployment/RelocationResourceDeploymentProvider.php:89-91 | appending '?', the mtime and the captured extension to the URL is the URL followed by the cache-busting query |
| Deployment.CopyIfStale | src/Deployment/RelocationResourceDeploymentProvider.php:81-87 | the copy step fails iff the copy is needed and the resource is not a file or the destination is not writable; on success only the destination may be added |
| Deployment.UrlPathOfRootedPath | src/Deployment/RelocationResourceDeploymentProvider.php:72 | for a path that starts with the root and holds it nowhere else, the URL path is "/deployed" plus the rest |
| Deployment.UrlPathHasNoBackslash | src/Deployment/RelocationResourceDeploymentProvider.php:72 | a deployed URL holds no backslash |
| Deployment.DeployedUrlCases | src/Deployment/RelocationResourceDeploymentProvider.php:31-43 | a remembered path gives its URL; an unresolvable one gives "/deployed/" |
| Deployment.DeployedUrlMatchesUrlPath | src/Deployment/RelocationResourceDeploymentProvider.php:40 | the computed URL equals the deployed URL path when the root-stripped path starts with a single '/' |
| Deployment.DeployThenUrl | src/Deployment/RelocationResourceDeploymentProvider.php:31-96 | after a deployment, asking for the URL of that path gives the URL the deployment returned |
| Deployment.ContentUrl | src/Deployment/RelocationResourceDeploymentProvider.php:106-120 | written content is served at "/deployed/" + the simulated path, and that file holds the content |
| Deployment.EmptyContentFails | src/Deployment/RelocationResourceDeploymentProvider.php:114-118 | writing empty content fails because zero bytes written is falsy |
| Deployment.ContentSucceeds | src/Deployment/RelocationResourceDeploymentProvider.php:98-121 | non-empty content succeeds when the folders exist and the file is writable |
| Deployment.FlatContentSucceeds | src/Deployment/RelocationResourceDeploymentProvider.php:100-120 | content at a simulated path without folders needs only the deployed folder, existing or creatable, and a writable file |
| Deployment.FileSystem.RealPath | src/Deployment/RelocationResourceDeploymentProvider.php:53 | realpath resolves exactly the paths the environment knows, to the path the environment gives |
| Deployment.FileSystem.Exists | src/Deployment/RelocationResourceDeploymentProvider.php:65 | `file_exists`: the path has an entry |
| Deployment.FileSystem.MTime | src/Deployment/RelocationResourceDeploymentProvider.php:81 | `filemtime`: the entry's modification time |
| Deployment.FileSystem.Mkdir | src/Deployment/RelocationResourceDeploymentProvider.php:60 | creation succeeds iff the path is not locked, and then adds the directory |
| Deployment.FileSystem.Copy | src/Deployment/RelocationResourceDeploymentProvider.php:82 | the copy succeeds iff the source is a file and the destination is writable; the destination then holds the source's content |
| Deployment.FileSystem.PutContents | src/Deployment/RelocationResourceDeploymentProvider.php:114 | a writable path is written and the byte count returned; otherwise false and nothing changes |
| Deployment.RelocationResourceDeploymentProvider.constructor | src/Deployment/RelocationResourceDeploymentProvider.php:29 | the cache starts empty |
| Deployment.RelocationResourceDeploymentProvider.GetDeployedResourceUrl | src/Deployment/RelocationResourceDeploymentProvider.php:31-43 | reads only the cache; a remembered path gives its URL and an unresolvable one "/deployed/" |
| Deployment.RelocationResourceDeploymentProvider.EnsureFolder | src/Deployment/RelocationResourceDeploymentProvider.php:59-63 | performs the folder step on the filesystem object, with the result of `MkdirIfMissing` |
| Deployment.RelocationResourceDeploymentProvider.DeployResource | src/Deployment/RelocationResourceDeploymentProvider.php:45-96 | the result, the new cache and the new files are those of the deployment specification on the old state |
| Deployment.RelocationResourceDeploymentProvider.DeployFile | src/Deployment/RelocationResourceDeploymentProvider.php:59-91 | the result and the new files are those of deploying the resolved path on the old files |
| Deployment.RelocationResourceDeploymentProvider.RefreshCopy | src/Deployment/RelocationResourceDeploymentProvider.php:81-87 | performs the copy step on the filesystem object, with the result of `CopyIfStale` |
| Deployment.RelocationResourceDeploymentProvider.DeployResourceContent | src/Deployment/RelocationResourceDeploymentProvider.php:98-121 | the result and the new files are those of the content specification on the old state |

## Left out

- HMAC-SHA256, base64url and JSON are not modelled: the JWT library is not part of this model. Its signature is a symbolic perfect MAC, and encoding is identity on that representation.
- The JWT library's `iat`, `nbf` and `exp` checks are not modelled: `Jwt.Decode` ignores the clock and accepts any issue time.
- Identities replace `new $providerClass` and `get_class`. A provider is the pair of its class name and its category.
- The concrete providers and the `Asset` class are not part of this model. Their operations `createAssetFromFile`, `deleteAsset`, `getStream` and `getUrl` are outside it, and `createAssetFromFile` is a function parameter of `StoreAsset`.
- `basename`, `filesize`, `finfo` and `time()` are foreign calls, so their results are parameters. `sniffed` is None when finfo is unavailable.
- `finfo` failing and returning false is not modelled.
- `Log::error` and the text of exception messages are not modelled; each error case is a distinct constructor.
- The configured key is compared with `""` as PHP's loose `==` does. A null key is represented by the empty string.
- The DOM parts of the validation script are left out: `findValidationPlaceHolder`, `applyToPlaceholders`, `scrollIntoView`, `innerHTML` and the `Scrolled` flag.
- `MatchesRegEx` needs a regular-expression engine. `fromJson` yields the unmodelled-constructor error for it, and for the other non-rule members of the namespace.
- The prototype reassignment at resources/validation.js:219-220 sets `EqualTo`'s prototype a second time. It does not change any verdict, so it is not modelled.
- The JavaScript value domain is limited:
  - numbers are integers, with no floats or NaN;
  - a string converts to a number only when it is empty or a plain run of decimal digits, with no whitespace, sign or exponent;
  - objects and arrays are not converted to primitives, so an array never loosely equals a string;
  - two arrays or objects are loosely equal when they are the same value by structure, whereas JavaScript compares references, so `EqualTo` and `EqualToModelProperty` pass a different array or object with the same contents;
  - inherited and prototype properties are not modelled;
  - objects keep their properties in insertion order, without JavaScript's integer-key ordering.
- JsValues.Lookup: an `Obj` may repeat a property name, which no JavaScript object does. The first field of that name is the one read, while `ForInValues` visits every field. `JSON.parse` keeps the last duplicate instead, so the model is exact for objects with distinct names.
- JsValues.Get: strings are sequences of Unicode scalar values. `length` and `<` count their UTF-16 code units, as JavaScript does. An index that falls on half of a surrogate pair gives the whole character, because a lone surrogate is not a character here. JavaScript gives the lone surrogate.
- `for … in` over a collection visits own values only. A string stands for the TypeError its first entry raises.
- `getGenerator` and the generator argument of the constructor are not part of this model.
- `send`, `printContent`, `setHeaderInPhp` and PHP `header()` are I/O and are left out. So is the `Application::current()->unitTesting` switch. `HeaderLines` returns the lines `processHeaders` would emit, in order.
- Response content is a string or null. `setContent` accepts any PHP value, but the set, get and format identities do not depend on its type.
- Header names are strings. PHP's conversion of numeric-string keys to integers is not modelled.
- `Dirname` splits only on '/'. PHP's `dirname` on Windows also splits on '\\', which a root or resolved path may contain.
- The clock is fixed per `FileSystem` (its `env` is a constant), so every copy and write within one filesystem gets the same modification time.
- `mkdir(…, true)` creates a missing folder as one entry. Missing parents are not created one by one.
- PHP's stat cache is not modelled.
- The relative path `deployed` is a key of the file map; it is not resolved against the working directory.
- Copying a resource onto itself is modelled as an ordinary copy.
- `copy` and `file_put_contents` fail only on a locked path or on a directory. Partial writes are not modelled.
- `RhubarbDate`, the local-storage catalogue settings, `ResponseFilter`, `SettingMissingException`, `SingletonTrait` and the two unit tests are not part of this model. They are thin wrappers, data holders or identity functions, or they exercise code not shown.
