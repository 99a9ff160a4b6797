# OneHttp: request signing, device identity and generated request functions

OneHttp is an Android HTTP client built on Retrofit and OkHttp. This project
models its core and proves properties of that model:

- **`HttpMethods`** (`HttpMethods.dfy`) is the interceptor's signing pipeline:
  - `addParams` builds the parameter map for every request. It takes the
    request's query or form fields, then the device fields, then the entries
    of `OneHttpManager.body()`. A later source wins.
  - `formatUrlMap` produces the canonical string: `key + value` for each
    entry, sorted by key with `String.compareTo`.
  - `getSign` computes the signature: the MD5 of Base64(time) + token +
    secret + the canonical string, with `[`, `]` and `"` deleted.
  - The interceptor sets the `token`, `timestamp` (`%010d` seconds), `osName`,
    `content-type` and `signature` headers.
- **`DeviceUtils`** (`DeviceUtils.dfy`) covers:
  - the whitespace cleaning of `Build.MODEL` and `Build.BRAND`;
  - `getMinOne`, the lexicographically least of two identifiers;
  - `getImeiOrMeid`, whose rules depend on the API level (29+, 26-28, 21-25,
    and below 21).
- **`HttpProcessor`** (`HttpProcessor.dfy`) is the annotation processor that
  generates `AutoRequest`:
  - the three `params` overloads;
  - for every method of every `@OneHttp` interface that is not
    `@OneHttpIgnore`d, a full callback function and a short `onSucc`-only
    overload;
  - the call text the generated function forwards to;
  - `asClassNameCustomize` and `toKotlinType`.
- **`ResultException`** (`ResultException.dfy`, from the `simplehttp` module)
  and **`HttpResult`** (`HttpResult.dfy`) are the exceptions built from a
  failed response envelope. Code 0 without data throws `NoDataException`.
  The registered `errorCodeHandle` handler for the code is run.

Supporting modules:

- `Wrappers.dfy` holds `Option` and `Result`.
- `JvmText.dfy` holds the JVM string semantics the core relies on:
  - UTF-16 `compareTo` and its order lemmas;
  - UTF-8 `toByteArray`;
  - decimal and zero-padded formatting;
  - Kotlin's regex `split(",")`.
- `Base64.dfy` is the RFC 4648 section 4 encoder (`NO_WRAP`), with a decoder
  and a round-trip proof.

Platform reads become explicit inputs: `Build` fields, `TelephonyManager`,
system properties, the permission check, the clock, and `OneHttpManager`'s
token, secret and body. MD5 is an uninterpreted function passed in with them.

When `formatUrlMap` fails it returns null, and Kotlin's `String + null`
then appends the text `"null"` to the signing input (see
`HttpMethods.FailedCanonicalFormSignsNull`).

## Model

| member | source | states |
|---|---|---|
| DeviceUtils.GetMinOneIsLeast | onehttp/src/main/java/com/jeahwan/onehttp/utils/DeviceUtils.kt:145-157 | "" exactly when both inputs are null or empty; otherwise one of the non-empty inputs, and no greater (by `compareTo`) than either non-empty input |
| DeviceUtils.GetMinOneSymmetric | onehttp/src/main/java/com/jeahwan/onehttp/utils/DeviceUtils.kt:145-157 | the choice does not depend on the order of the two identifiers |
| DeviceUtils.RemoveSpaces | onehttp/src/main/java/com/jeahwan/onehttp/utils/DeviceUtils.kt:56 | after `replace("\\s*", "")` no regex whitespace character is left, and the text is no longer than before |
| DeviceUtils.CleanBuildNameShape | onehttp/src/main/java/com/jeahwan/onehttp/utils/DeviceUtils.kt:54-64 | a null `Build.MODEL`/`BRAND` gives ""; the result has no whitespace and neither starts nor ends with a character `<= ' '` |
| DeviceUtils.RemoveSpacesConcat | onehttp/src/main/java/com/jeahwan/onehttp/utils/DeviceUtils.kt:56 | `replace("\\s*", "")` removes each regex whitespace character and keeps every other one in place: it distributes over concatenation, and one character is kept exactly when it is not whitespace |
| DeviceUtils.CleanBuildNameOfClean | onehttp/src/main/java/com/jeahwan/onehttp/utils/DeviceUtils.kt:54-64 | a name with no whitespace whose ends are above `' '` comes back unchanged |
| DeviceUtils.CleanBuildNameIdempotent | onehttp/src/main/java/com/jeahwan/onehttp/utils/DeviceUtils.kt:54-64 | cleaning an already cleaned model or brand changes nothing |
| DeviceUtils.GetImeiOrMeid | onehttp/src/main/java/com/jeahwan/onehttp/utils/DeviceUtils.kt:81-143 | the method, which reassigns `id0`/`id1` step by step, returns the identifier the API-level rules define |
| DeviceUtils.ImeiOrMeidFromQ | onehttp/src/main/java/com/jeahwan/onehttp/utils/DeviceUtils.kt:82-84 | from API 29 on, the identifier is always "" |
| DeviceUtils.ImeiOrMeidFromProperty | onehttp/src/main/java/com/jeahwan/onehttp/utils/DeviceUtils.kt:92-102 | on API 21-25 with a non-empty `ril.gsm.imei`/`ril.cdma.meid` property: with exactly two comma-separated parts, the lesser; otherwise the first part; always one of the parts |
| DeviceUtils.ImeiOrMeidFallbackFilters | onehttp/src/main/java/com/jeahwan/onehttp/utils/DeviceUtils.kt:103-129 | on API 21-25 without the property, a candidate (the device id or the GSM/CDMA slot id) is accepted when present, non-empty and not rejected by the length filter (an IMEI needs at least 15 units, a MEID must not have exactly 14); the result is non-empty exactly when some candidate is accepted, is then one of the accepted ids, and is no greater by `compareTo` than any accepted id |
| DeviceUtils.ImeiOrMeidBeforeLollipop | onehttp/src/main/java/com/jeahwan/onehttp/utils/DeviceUtils.kt:130-142 | below API 21 the result is `getDeviceId()` or ""; it is non-empty exactly when the IMEI has at least 15 units, or the MEID exactly 14 |
| DeviceUtils.MeidRulesDisagree | onehttp/src/main/java/com/jeahwan/onehttp/utils/DeviceUtils.kt:122-137 | the same 14-unit MEID is reported below API 21 and blanked on API 21: the two rules contradict each other |
| JvmText.CompareToZero | onehttp/src/main/java/com/jeahwan/onehttp/utils/DeviceUtils.kt:150 | `compareTo` is 0 exactly for equal strings |
| JvmText.CompareToFlip | onehttp/src/main/java/com/jeahwan/onehttp/HttpMethods.kt:176 | `compareTo` is antisymmetric, so the sort comparator is consistent |
| JvmText.CompareToTransitive | onehttp/src/main/java/com/jeahwan/onehttp/HttpMethods.kt:176 | `compareTo` is transitive, so the key order is a strict total order |
| JvmText.SplitJoin | onehttp/src/main/java/com/jeahwan/onehttp/utils/DeviceUtils.kt:96 | the split on ',' gives parts without commas that join back to the input, trailing empty parts kept |
| JvmText.FormatZeroPaddedRoundTrip | onehttp/src/main/java/com/jeahwan/onehttp/HttpMethods.kt:114 | `%010d` of a non-negative number is all digits, at least ten long, and reads back as the number |
| Base64.DecodeEncode | onehttp/src/main/java/com/jeahwan/onehttp/HttpMethods.kt:195-197 | the `NO_WRAP` encoding of the time bytes decodes back to those bytes |
| Base64.EncodeVectors | onehttp/src/main/java/com/jeahwan/onehttp/HttpMethods.kt:195-197 | the encoding agrees with the test vectors of section 10 of RFC 4648 ("f", "fo", "foo", "foobar") and decodes "Zm9vYmFy" back |
| HttpMethods.FromPairsLastWins | onehttp/src/main/java/com/jeahwan/onehttp/HttpMethods.kt:63-83 | storing pairs one by one defines exactly the keys that occur, each mapped to its last pair's value |
| HttpMethods.GetRequestFields | onehttp/src/main/java/com/jeahwan/onehttp/HttpMethods.kt:63-71 | for a GET the fields always build; their keys are exactly the query parameter names, and each name maps to the text of its last occurrence's value (a value-less parameter gives "null") |
| HttpMethods.FormPairsDefined | onehttp/src/main/java/com/jeahwan/onehttp/HttpMethods.kt:72-84 | the form fields are read exactly when every value URL-decodes, and then each field is its name with its decoded value |
| HttpMethods.DeviceFields | onehttp/src/main/java/com/jeahwan/onehttp/HttpMethods.kt:86-98 | the five device keys always, plus `imei` exactly when READ_PHONE_STATE is granted and the IMEI is non-empty, holding that IMEI |
| HttpMethods.ReadRequestFields | onehttp/src/main/java/com/jeahwan/onehttp/HttpMethods.kt:62-85 | the loops yield the request's own fields: GET query, POST/PUT form fields, failure for a missing, non-form or undecodable body |
| HttpMethods.PutDeviceFields | onehttp/src/main/java/com/jeahwan/onehttp/HttpMethods.kt:86-98 | the device fields overwrite the request's fields |
| HttpMethods.PutAll | onehttp/src/main/java/com/jeahwan/onehttp/HttpMethods.kt:99-101 | the loop over `OneHttpManager.body()` leaves the map overwritten by every body entry |
| HttpMethods.AddParams | onehttp/src/main/java/com/jeahwan/onehttp/HttpMethods.kt:60-102 | fails exactly when reading the request fails, with the same error; otherwise the keys are the union of the three sources, and a body entry beats a device field, which beats a request field |
| HttpMethods.SortedListingUnique | onehttp/src/main/java/com/jeahwan/onehttp/HttpMethods.kt:174-176 | a listing of the map's entries sorted by key is unique, so the canonical string does not depend on the map's iteration order |
| HttpMethods.InsertByKey | onehttp/src/main/java/com/jeahwan/onehttp/HttpMethods.kt:176 | inserting an entry keeps the list ascending by key and adds exactly that entry |
| HttpMethods.SortByKey | onehttp/src/main/java/com/jeahwan/onehttp/HttpMethods.kt:176 | `Collections.sort` with the key comparator gives a permutation that is ascending by key |
| HttpMethods.EntryList | onehttp/src/main/java/com/jeahwan/onehttp/HttpMethods.kt:174 | `ArrayList(paraMap.entries)` lists each entry of the map exactly once |
| HttpMethods.AppendEntries | onehttp/src/main/java/com/jeahwan/onehttp/HttpMethods.kt:178-182 | the append loop concatenates `key + value` over the list, or fails when a value's `toString()` throws |
| HttpMethods.JoinEntriesFails | onehttp/src/main/java/com/jeahwan/onehttp/HttpMethods.kt:178-185 | joining fails exactly when some value's `toString()` throws |
| HttpMethods.FormatUrlMap | onehttp/src/main/java/com/jeahwan/onehttp/HttpMethods.kt:171-187 | copy, sort and append give the canonical string of the map, or null |
| HttpMethods.CanonicalFormOfListing | onehttp/src/main/java/com/jeahwan/onehttp/HttpMethods.kt:171-187 | any key-ascending listing of the map joins to its canonical string |
| HttpMethods.CanonicalFormEmpty | onehttp/src/main/java/com/jeahwan/onehttp/HttpMethods.kt:171-187 | the empty map canonicalises to "" |
| HttpMethods.CanonicalFormFails | onehttp/src/main/java/com/jeahwan/onehttp/HttpMethods.kt:183-185 | `formatUrlMap` returns null exactly when some value's `toString()` throws |
| HttpMethods.CanonicalFormSingle | onehttp/src/main/java/com/jeahwan/onehttp/HttpMethods.kt:179-181 | a one-entry map canonicalises to key + value |
| HttpMethods.CanonicalFormPair | onehttp/src/main/java/com/jeahwan/onehttp/HttpMethods.kt:176-181 | two entries come out in key order, whatever order the map was built in |
| HttpMethods.CanonicalFormExample | onehttp/src/main/java/com/jeahwan/onehttp/HttpMethods.kt:176-181 | {b: 2, a: 1} canonicalises to "a1b2" |
| HttpMethods.CanonicalFormNotInjective | onehttp/src/main/java/com/jeahwan/onehttp/HttpMethods.kt:180 | distinct maps {ab: c} and {a: bc} share the canonical string "abc": no separator is inserted |
| HttpMethods.StripNoiseKeepsOrder | onehttp/src/main/java/com/jeahwan/onehttp/HttpMethods.kt:200 | the three `replace` calls keep exactly the characters other than `[`, `]` and `"`, in order; nothing is left exactly when all are such characters |
| HttpMethods.KeepSignificantClean | onehttp/src/main/java/com/jeahwan/onehttp/HttpMethods.kt:200 | the stripped text has none of the three characters, and stripping again changes nothing |
| HttpMethods.GetSign | onehttp/src/main/java/com/jeahwan/onehttp/HttpMethods.kt:189-202 | the signature is the MD5 of the stripped Base64(time) + token + secret(path) + canonical string |
| HttpMethods.StrippedSigningInput | onehttp/src/main/java/com/jeahwan/onehttp/HttpMethods.kt:194-200 | the stripping leaves the Base64 part intact and strips the token, the secret and the canonical text each on its own |
| HttpMethods.FailedCanonicalFormSignsNull | onehttp/src/main/java/com/jeahwan/onehttp/HttpMethods.kt:194-198 | when some value cannot be shown, the signing input ends in the text "null" |
| HttpMethods.TimestampTextShape | onehttp/src/main/java/com/jeahwan/onehttp/HttpMethods.kt:114 | the timestamp is the decimal seconds since the epoch, zero-padded to at least ten digits |
| HttpMethods.SigningHeaders | onehttp/src/main/java/com/jeahwan/onehttp/HttpMethods.kt:114-120 | five headers: the token, the timestamp, `osName` "android", the JSON content type, and the signature computed over the same timestamp text the `timestamp` header carries |
| HttpProcessor.ToKotlinTypeIdempotent | onehttp-compiler/src/main/java/com/jeahwan/onehttp/compiler/HttpProcessor.kt:347-354 | mapping twice is mapping once; only `Integer`, `java.lang` and `java.util` change |
| HttpProcessor.InnerNamesOfChain | onehttp-compiler/src/main/java/com/jeahwan/onehttp/compiler/HttpProcessor.kt:330-339 | the `require` fails exactly when a local or anonymous class is in the enclosing chain; otherwise one renamed simple name per class of the chain |
| HttpProcessor.ClassNameShape | onehttp-compiler/src/main/java/com/jeahwan/onehttp/compiler/HttpProcessor.kt:319-342 | the package is the renamed enclosing package; the simple names are the chain reversed, outermost first, ending in the type's own renamed name |
| HttpProcessor.NestedClassName | onehttp-compiler/src/main/java/com/jeahwan/onehttp/compiler/HttpProcessor.kt:332-341 | a member class's name is its enclosing class's name with its own simple name appended |
| HttpProcessor.MapEntryClassName | onehttp-compiler/src/main/java/com/jeahwan/onehttp/compiler/HttpProcessor.kt:319-354 | `java.util.Map.Entry` becomes `kotlin.collections.Map.Entry` |
| HttpProcessor.AsClassNameCustomize | onehttp-compiler/src/main/java/com/jeahwan/onehttp/compiler/HttpProcessor.kt:319-342 | the walk up the enclosing elements with `names.reverse()` computes the class name, or the `require` failure |
| HttpProcessor.CallTextArguments | onehttp-compiler/src/main/java/com/jeahwan/onehttp/compiler/HttpProcessor.kt:161-169 | every parameter except the last is converted, with `valueOf(mParams.get("name"))`, at its own position after the call head |
| HttpProcessor.CallTextEnds | onehttp-compiler/src/main/java/com/jeahwan/onehttp/compiler/HttpProcessor.kt:161-169 | the call text starts with the cast service call and ends with `mParams)`; with at most one parameter nothing else is in it |
| HttpProcessor.ObservableParamStr | onehttp-compiler/src/main/java/com/jeahwan/onehttp/compiler/HttpProcessor.kt:161-169 | the `StringBuilder` loop builds the call text |
| HttpProcessor.HasIgnoreAnnotation | onehttp-compiler/src/main/java/com/jeahwan/onehttp/compiler/HttpProcessor.kt:144-151 | the early exit happens exactly when some annotation type's text contains `OneHttpIgnore` |
| HttpProcessor.MethodsFunctionsPairs | onehttp-compiler/src/main/java/com/jeahwan/onehttp/compiler/HttpProcessor.kt:142-239 | a service contributes two functions per kept method, in method order: the full overload, then the short one |
| HttpProcessor.KeptAreNotIgnored | onehttp-compiler/src/main/java/com/jeahwan/onehttp/compiler/HttpProcessor.kt:144-151 | a method is kept exactly when it is a method of the service and carries no ignore annotation |
| HttpProcessor.KeptConcat | onehttp-compiler/src/main/java/com/jeahwan/onehttp/compiler/HttpProcessor.kt:144-151 | the kept methods keep their order: keeping distributes over concatenation |
| HttpProcessor.KeptSnoc | onehttp-compiler/src/main/java/com/jeahwan/onehttp/compiler/HttpProcessor.kt:144-151 | one more method of the service is appended to the kept ones exactly when it carries no ignore annotation |
| HttpProcessor.KeptOne | onehttp-compiler/src/main/java/com/jeahwan/onehttp/compiler/HttpProcessor.kt:144-151 | a single method is kept exactly when it carries no ignore annotation |
| HttpProcessor.IgnoredMethodsContributeNothing | onehttp-compiler/src/main/java/com/jeahwan/onehttp/compiler/HttpProcessor.kt:144-151 | dropping the ignored methods first generates the same functions |
| HttpProcessor.GeneratedNames | onehttp-compiler/src/main/java/com/jeahwan/onehttp/compiler/HttpProcessor.kt:175-221 | every generated function is named after a non-ignored method of the service |
| HttpProcessor.ShortOverloadUsesDefaults | onehttp-compiler/src/main/java/com/jeahwan/onehttp/compiler/HttpProcessor.kt:204-236 | the short overload takes only `onSucc` and calls the full one with exactly the full one's default values |
| HttpProcessor.TypeBuilder.AddFunction | onehttp-compiler/src/main/java/com/jeahwan/onehttp/compiler/HttpProcessor.kt:86 | `addFunction` appends one function |
| HttpProcessor.AddMethodFunctions | onehttp-compiler/src/main/java/com/jeahwan/onehttp/compiler/HttpProcessor.kt:142-239 | one iteration of the inner loop appends that method's overloads, none for an ignored method |
| HttpProcessor.AddParamsOverloads | onehttp-compiler/src/main/java/com/jeahwan/onehttp/compiler/HttpProcessor.kt:86-135 | the three `params` overloads (map, block, vararg pairs) are appended, in that order |
| HttpProcessor.AddServiceFunctions | onehttp-compiler/src/main/java/com/jeahwan/onehttp/compiler/HttpProcessor.kt:142-240 | the loop over a service's methods appends its functions in order |
| HttpProcessor.AddAllServiceFunctions | onehttp-compiler/src/main/java/com/jeahwan/onehttp/compiler/HttpProcessor.kt:138-241 | the loop over the `@OneHttp` interfaces appends each one's functions in order |
| HttpProcessor.Process | onehttp-compiler/src/main/java/com/jeahwan/onehttp/compiler/HttpProcessor.kt:74-241 | `AutoRequest` gets its private parameterless constructor first, then the three `params` overloads, then every service's generated functions in order |
| ResultException.ResultException.constructor | simplehttp/src/main/java/com/jeahwan/simplehttp/ResultException.java:12-15 | the message, code and data are copied from the envelope |
| ResultException.ResultException.HandleException | simplehttp/src/main/java/com/jeahwan/simplehttp/ResultException.java:22-34 | throws `NoDataException` exactly for code 0 without data, carrying the envelope's message; code 3 and every other code do nothing |
| ResultException.Construct | simplehttp/src/main/java/com/jeahwan/simplehttp/ResultException.java:12-17 | construction fails with `NoDataException` exactly for code 0 without data; otherwise it yields a new exception with the fields copied |
| HttpResult.MatchingEntries | onehttp/src/main/java/com/jeahwan/onehttp/HttpResult.kt:26-30 | at most one entry of `errorCodeHandle` matches, and it is the one registered under the code |
| HttpResult.MatchingEntriesExactly | onehttp/src/main/java/com/jeahwan/onehttp/HttpResult.kt:26-30 | a registered handler runs exactly when its key equals the error code |
| HttpResult.HandlerLog.Invoke | onehttp/src/main/java/com/jeahwan/onehttp/HttpResult.kt:28 | invoking a handler records exactly that invocation |
| HttpResult.HttpResultException.constructor | onehttp/src/main/java/com/jeahwan/onehttp/HttpResult.kt:17-35 | message, code and data are copied, and the only handlers run are those registered for the code |

## Left out

- Strings are sequences of Unicode scalar values. A lone UTF-16 surrogate is not representable. `compareTo` is modelled on the UTF-16 encoding, so the order of every representable string is the JVM's.
- HttpMethods.SortByKey: `Collections.sort` is a library merge sort working on an `ArrayList`. It is modelled as an insertion sort over a sequence with the same result, because keys are distinct; the in-place update is not modelled.
- `OneHttpManager.token()` is called twice per request (header and signature). The model reads it once, assuming it does not change within a request.
- `DeviceUtils.isHarmonyOs()` and `DeviceUtils.iMEI` are read twice by `addParams`. The model assumes they are stable within one call.
- `getSystemPropertyByReflect` and the reflective `getDeviceId(int)` are inputs. A failed reflective call reads as an empty or absent value, which is what the code then uses.
- `URLDecoder.decode` is a function input. `None` stands for the `IllegalArgumentException` it throws on a malformed escape, which `addParams` does not catch.
- MD5 (`MD5HexHelper.toMD5`) is an uninterpreted function that returns 32 lower-case hexadecimal characters. Its internals are not part of this model.
- `OneHttpManager` (token, `apiSecret`, `body()`, `errorCodeHandle`, context) is passed as parameters. Its storage and initialisation are not part of this model.
- Not modelled: the rest of the OkHttp interceptor (gzip for `gZipUrl`, `computeContentLength`, logging, proceeding the chain), Retrofit service creation, Gson, the Rx subscribers and their UI, and the simplehttp client. They are transport and presentation, not signing logic.
- HttpProcessor.Process: `asTypeNameCustomize` of the response type argument is kept abstract as the method's `dataType` text. Also not modelled: the casts of the return type, the `ClassCastException` for a non-method member of an interface, the `println`, the `getInstance` companion, the `HttpMethods` superclass, the `FINAL` modifier and the file written to the filer.
- HttpProcessor.ObservableParamStr: a parameter's type and name are taken as texts. The `?.` on a null `VariableElement`, which would print "null", is not modelled.
- HttpResult.HttpResultException.constructor: `errorCodeHandle` is a map, so at most one handler matches. The `when (errorCode)` has no branch and does nothing. The default construction of `HttpResult` and the later reassignment of its fields are not modelled.
- HttpMethods.TimestampText: `String.format("%010d", …)` formats with the default locale's zero digit; the model writes ASCII digits, as a locale with zero digit '0' does. Under a locale with other digits (Arabic-Indic, say) the header value would hold non-ASCII characters, which OkHttp's `addHeader` rejects; that failure is not modelled. 
- HttpMethods.TimestampTextShape: the digits it states are ASCII, which holds only under a locale whose zero digit is '0' (see the line above).
- JvmText.FormatZeroPaddedRoundTrip: stated for ASCII digits only, for the same locale reason.
- A time before the epoch gives a negative timestamp. `TimestampText` models it with Java's truncating division and the `-` sign, but the shape lemma is stated only for non-negative clocks.
