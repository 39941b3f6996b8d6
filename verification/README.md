# A verified model of a PKCS #11 module's server side

The project models the server side of go-p11-kit: a PKCS #11 module in Go that serves p11-kit's
remote procedure calls (version 0) over a byte stream. `dafny verify dfyconfig.toml` checks it.

Three cores, and the results that tie them together:

1. **The wire codec** (`p11kit/rpc.go`). `Bytes`, `Dates`, `Wire`, `Attributes`, `Fields` and
   `Encodings` define the formats and prove round trips for every value and every suffix; `Layouts`
   writes them out byte by byte, and `Parsing` does so for every request.
   `Buffers` and `Bodies` are the mutable buffer and body, as classes; each method is proved to do
   to its fields exactly what those formats say. `Messages` adds framing and the Handle loop.
2. **Sessions, tokens and connections** (`p11kit/p11kit.go`). `Sessions`, `Handles` and `Slots` give
   the effect of each request. `Machine` interleaves any number of connections at the granularity of
   the critical sections, with an invariant over every run; `Visibility` and `Runs` prove properties
   of whole runs, and `Leftovers` what one operation leaves for the next. `Handlers`, `Dispatch`
   and `Messages` are the code itself, as classes and loops,
   proved against the same functions; `Requests.UninterruptedRequest` proves that a handler without
   interference is a run of the machine's steps.
3. **Objects, attributes and key arithmetic** (`p11kit/attribute.go`). `Objects`, `Keygen` and
   `Crypto`: lookup, matching and templates, the constructors, the X9.63 key derivation loop,
   resizing, raw signatures and ECDH derivation (SEC 1 v2.0, sections 2.3.3, 2.3.4 and 3.6.1).

`Outcomes` says when each request succeeds and with which error it fails, `Lists` what new objects show.
`Clients` joins them: what a client decodes from an answer, in any reachable state. `Sizes` says which
answers fit their length field.

Integers are bounded where the source's are: `byte`, `uint32` and `uint64` are subset types, and
truncation and wrap-around are written out (`% TWO32`, `Candidate`, `Counter`). A nil byte slice is
`Nil`, different from an empty one, because `attribute.value()` tells them apart.

Where the code does not do what one would expect, the model follows the code and states exactly when
it does:

- A year outside 1000-9999 becomes 0000 on the wire; a date survives if and only if its year is in
  that range or is 0 (`Dates.DateRoundTrip`).
- A byte array of 2^32-1 bytes or more does not survive its 32-bit length field
  (`Wire.ByteArrayRoundTrip`).
- A parameter-less mechanism sent without the 0xffffffff marker is misread if and only if the key
  handle after it is at least 0xffffffff00000000, and C_SignInit then fails with a parse error
  (`Encodings.SignInitEncodings`).
- C_FindObjectsFinal neither clears the queue nor looks its session up, so a search returns exactly
  its matches if and only if nothing was left queued (`Sessions.SearchExact`,
  `Leftovers.SearchAfterRun`); a run in which something was is `Leftovers.StaleSearch`.
- Neither C_SignInit nor C_SignFinal clears the data of C_SignUpdate, so C_SignFinal signs exactly
  the new chunks if and only if nothing was pending (`Runs.SignFinalSigns`,
  `Leftovers.SignatureAfterRun`); a run in which something was is `Leftovers.StaleSignature`.
- The handle 0 can be issued, but only once the counter wraps (`Handles.ZeroIssued`).
- The KDF counter is never checked; it is right if and only if the length is within the standard's
  limit (`Crypto.CountersWithinLimit`).
- A response body of 2^32 bytes or more is sent with a wrapped length and ends the lockstep; this is
  so exactly for the requests that `Sizes.ResponseFits` rules out, and one of 32,800 bytes is shown
  (`Messages.Lockstep`, `Messages.LockstepFails`).
- SetLabel and SetCertificate append, so what they set shows if and only if nothing else of its type
  was there before; a key keeps showing its own CKA_PUBLIC_KEY_INFO (`Objects.ObjectVar.SetLabel`,
  `Objects.KeyInfoStays`).
- A label longer than 32 bytes is stored whole but cut in C_GetTokenInfo (`Runs.LabelField`).

## Model

| member | source | states |
|---|---|---|
| Bytes.NatOfBE | p11kit/attribute.go:226-228 | fixed-width big-endian decoding undoes encoding exactly when the integer fits the width |
| Bytes.BEOfNat | p11kit/attribute.go:829-837 | encoding undoes decoding, so fixed-width encodings are unique |
| Bytes.NatOfPrefix | p11kit/attribute.go:886-897 | keeping the leading bytes divides the integer by a power of 256 |
| Bytes.BitLenFits | p11kit/attribute.go:216-228 | a bit length of at most 8k is the same as fitting k bytes |
| Dates.DateTrip | p11kit/rpc.go:243-271 | one trip over the wire keeps month and day and maps the year to its wire year; 29 February always survives |
| Dates.DateRoundTrip | p11kit/rpc.go:391-410 | a date survives if and only if its year is 1000-9999 or 0 |
| Dates.DateStable | p11kit/rpc.go:243-271 | every date's encoding decodes, and to a date, perhaps another, with the same encoding |
| Dates.DateEncodingEqual | p11kit/rpc.go:243-271 | two dates have equal encodings exactly when they agree up to the collapse of years |
| Dates.CarryKeepsDay | p11kit/rpc.go:407 | normalising an out-of-range day, as time.Date does, keeps the day number |
| Dates.NormalizeKeepsDay | p11kit/rpc.go:407 | so does carrying months into years |
| Dates.OneDatePerDay | p11kit/rpc.go:407 | each day number has one existing date, so these determine the normalised date |
| Wire.U32RoundTrip | p11kit/rpc.go:345-353 | a 32-bit integer and any suffix read back |
| Wire.U64RoundTrip | p11kit/rpc.go:364-372 | a 64-bit integer and any suffix read back |
| Wire.ByteArrayRoundTrip | p11kit/rpc.go:374-389 | a byte array and any suffix read back if and only if its length is below the NULL marker |
| Wire.ByteArrayInjective | p11kit/rpc.go:220-224 | equal encodings come from equal arrays, even when the length field wrapped |
| Attributes.Attribute.Value | p11kit/attribute.go:1054-1082 | value() is nil or non-empty, whatever fields are set |
| Attributes.AttributeRoundTrip | p11kit/rpc.go:274-334 | an attribute and any suffix read back exactly if and only if it is well typed and within the codec's bounds; the outer length is ignored |
| Attributes.AttributesRoundTrip | p11kit/rpc.go:556-576 | so do lists of attributes, self-delimiting before any suffix |
| Attributes.DecodedWellTyped | p11kit/rpc.go:274-334 | whatever is decoded from the wire is well typed |
| Attributes.DecodedAllWellTyped | p11kit/rpc.go:556-576 | so is every decoded list, with the announced number of entries |
| Attributes.EncodingInjective | p11kit/attribute.go:67-75 | well-typed attributes of one type have equal encodings exactly when they are equal, or are dates with the same wire form |
| Buffers.Buffer.AddByteArray | p11kit/rpc.go:220-224 | appends the length, truncated to 32 bits, and the bytes; changes nothing else |
| Buffers.Buffer.AddDate | p11kit/rpc.go:243-271 | appends the eight digits, year 0000 when out of range |
| Buffers.Buffer.AddAttribute | p11kit/rpc.go:200-218 | appends the attribute's encoding, the one the round trip is about |
| Buffers.Buffer.TakeUint32 | p11kit/rpc.go:345-353 | consumes four bytes and returns their value, or fails and changes nothing |
| Buffers.Buffer.PeekUint32 | p11kit/rpc.go:357-362 | tells whether the next four bytes are the given integer, without consuming |
| Buffers.Buffer.TakeByteArray | p11kit/rpc.go:374-389 | reads nil for the NULL marker, else the bytes; on a short body the length is consumed |
| Buffers.Buffer.TakeDate | p11kit/rpc.go:391-410 | reads a date, or fails and changes nothing |
| Buffers.Buffer.TakeAttributeValue | p11kit/rpc.go:291-333 | reads the value fields by the type's kind, ignoring the outer length |
| Buffers.Buffer.TakeAttribute | p11kit/rpc.go:274-334 | reads one attribute, leaving exactly what the format says on success and on failure |
| Fields.PrefixFree | p11kit/rpc.go:423-436 | no signature code is a prefix of another |
| Fields.SignatureUnique | p11kit/rpc.go:423-436 | a signature spells at most one list of fields |
| Fields.ErrorSticks | p11kit/rpc.go:455-478 | after the first error no read changes anything |
| Fields.ReadsExactly | p11kit/rpc.go:438-478 | reads end without error if and only if the signature is exactly the codes read and the buffer is exactly their contents, and then the values are those decoded |
| Encodings.MechanismRoundTrip | p11kit/rpc.go:642-716 | with the marker a mechanism always reads back; without it, if and only if what follows is not itself the marker |
| Encodings.FieldRoundTrip | p11kit/rpc.go:549-736 | every sendable field and any suffix read back |
| Encodings.FieldsRoundTrip | p11kit/rpc.go:549-736 | so does every list of fields |
| Encodings.BodyRoundTrip | p11kit/rpc.go:438-478 | a body written field by field reads back without error as the same fields |
| Encodings.SignInitEncodings | p11kit/p11kit.go:871-883 | C_SignInit's three fields parse as intended in the old encoding always, and in the new one if and only if the key handle is below 0xffffffff00000000; otherwise parsing fails |
| Encodings.MarkerPrefix | p11kit/rpc.go:357-362 | the key handles that begin with the marker |
| Bodies.Body.Err | p11kit/rpc.go:438-449 | the recorded error, else leftover signature, else leftover buffer |
| Bodies.Body.Sig | p11kit/rpc.go:455-465 | consumes the next code, or records the one error, or does nothing after an error |
| Bodies.Body.ReadUlong | p11kit/rpc.go:621-625 | reads one field: signature, buffer and error change exactly as the field reader says |
| Bodies.Body.ReadByteArray | p11kit/rpc.go:579-603 | the same for an optional byte array and its length |
| Bodies.Body.ReadZeroString | p11kit/rpc.go:609-619 | the same for a string |
| Bodies.Body.ReadAttributeArray | p11kit/rpc.go:556-577 | the same for the loop over attributes |
| Bodies.Body.ReadAttributeBuffer | p11kit/rpc.go:719-736 | the same for the loop over attribute templates |
| Bodies.Body.ReadMechanism | p11kit/rpc.go:642-708 | the same for a mechanism, in all its encodings |
| Bodies.Body.WriteByteArray | p11kit/rpc.go:496-506 | appends the code and the array, or the marker and a length for nil |
| Bodies.Body.WriteUlongArray | p11kit/rpc.go:514-527 | the same for an array of unsigned longs |
| Bodies.Body.WriteAttributeArray | p11kit/rpc.go:481-488 | appends the code, the count and every attribute |
| Bodies.Body.WriteString | p11kit/rpc.go:529-540 | appends the string cut or space-padded to the width |
| Layouts.U32Bytes | p11kit/rpc.go:226-230 | 32-bit integers are four bytes, most significant first, in both directions |
| Layouts.U64Halves | p11kit/rpc.go:232-236 | 64-bit integers are two of those |
| Layouts.NullArray | p11kit/rpc.go:374-389 | four bytes 0xff read as nil |
| Layouts.TypeTable | p11kit/attribute.go:953-1051 | which attribute types are bytes, unsigned longs, dates, lists of mechanisms and byte arrays, one by one |
| Layouts.AttributeBytes | p11kit/rpc.go:200-218 | the bytes of an attribute of each kind: type, validity, outer length and value |
| Layouts.AttributeReads | p11kit/rpc.go:274-334 | how they are read for any nonzero validity and any outer length |
| Layouts.DateDigits | p11kit/rpc.go:243-271 | a date is written as its year, month and day in decimal, and other years as 0000 |
| Layouts.DateReads | p11kit/rpc.go:391-410 | eight characters are a date if and only if they are digits, and then the normalised one they spell |
| Layouts.Letters | p11kit/rpc.go:423-436 | the twelve signature codes |
| Layouts.NoParameterTypes | p11kit/rpc.go:710-716 | the five mechanism types encoded without parameters |
| Layouts.MechanismBytes | p11kit/rpc.go:642-708 | the bytes of PSS and ECDH parameters, in order, for any nonzero presence byte; absent parameters read as empty |
| Layouts.OptionalBytes | p11kit/rpc.go:579-603 | an optional byte array reads by any nonzero presence byte, or as a length alone |
| Layouts.UlongAt | p11kit/rpc.go:514-527 | the i-th number of an array stands at 8i |
| Layouts.FrameBytes | p11kit/rpc.go:738-800 | the bytes of a message and of a response |
| Objects.Lookup | p11kit/attribute.go:158-165 | the result is an attribute of the object with the requested type |
| Objects.MatchesIsLookup | p11kit/attribute.go:67-75 | an entry matches if and only if the first attribute of its type exists and has an equal encoding |
| Objects.MatchesIsEquality | p11kit/attribute.go:67-75 | for well-typed attributes that are not dates that is equality of values |
| Objects.LookupSetAll | p11kit/attribute.go:119-132 | after setAttributes, lookup gives the last template entry of a type and otherwise what it gave before |
| Objects.FoundByOwnTemplate | p11kit/attribute.go:568-569 | a key carrying a template matches it if and only if no entry is contradicted by a later one |
| Objects.FoundByDuplicateFree | p11kit/attribute.go:568-569 | so always when the template names no type twice |
| Objects.SetAllWellTyped | p11kit/attribute.go:121-132 | templates keep objects well typed |
| Objects.KeysWellTyped | p11kit/attribute.go:416-535 | key objects are built well typed |
| Objects.CertificatesWellTyped | p11kit/attribute.go:646-676 | certificate objects are built well typed |
| Objects.ObjectVar.SetLabel | p11kit/attribute.go:88-92 | appends; the label shows in lookups if and only if the object had none or had it already, every other lookup is unchanged, and the object stays well typed |
| Objects.ObjectVar.SetAttribute | p11kit/attribute.go:122-131 | the inner loop replaces the first attribute of the type, or appends |
| Objects.ObjectVar.SetAttributes | p11kit/attribute.go:121-132 | the outer loop applies the whole template |
| Objects.ObjectVar.SetCKAID | p11kit/attribute.go:98-102 | the new CKA_ID shows in lookups, whatever was there, every other lookup is unchanged, and the object stays well typed |
| Objects.ObjectVar.SetDerive | p11kit/attribute.go:107-117 | CKA_DERIVE becomes true, every other lookup is unchanged |
| Objects.ObjectVar.SetCertificate | p11kit/attribute.go:138-156 | appends four attributes, or fails and changes nothing; each shows if and only if the object had none of its type or had it already, and every other lookup is unchanged |
| Objects.Appended | p11kit/attribute.go:158-165 | in general, an appended attribute shows if and only if nothing of its type was there before, or it was |
| Objects.SecondLabelHidden | p11kit/attribute.go:88-92 | a failing input: after two different SetLabel calls, lookups give the first label |
| Objects.KeyInfoStays | p11kit/attribute.go:138-156 | on a key a certificate's CKA_PUBLIC_KEY_INFO shows if and only if it equals the key's own |
| Lists.MinimalForm | p11kit/attribute.go:513-515 | modulus and exponent are written without leading zeros and read back as themselves |
| Lists.KeyShows | p11kit/attribute.go:419-442 | both halves show their class, who verifies, what no key may do, and the public key info |
| Lists.PrivateKeyShows | p11kit/attribute.go:444-455 | a private key shows as a sensitive token object that signs and cannot be extracted |
| Lists.EcKeyShows | p11kit/attribute.go:457-502 | an EC key shows its curve; a public one its point, a private one no value |
| Lists.RsaKeyShows | p11kit/attribute.go:503-529 | an RSA key shows modulus and exponent as integers and no private value |
| Lists.KeyObjects | p11kit/attribute.go:369-401 | which keys can be stored, and that the object keeps the key and identifier it was made of |
| Lists.CertificateShows | p11kit/attribute.go:646-676 | which certificates can be stored, and what each attribute shows |
| Crypto.BlockAt | p11kit/attribute.go:870-880 | block i of the output is Hash(Z, BE32(i+1), SharedInfo) |
| Crypto.X963 | p11kit/attribute.go:866-881 | succeeds exactly for positive lengths, with exactly that many bytes |
| Crypto.X963Kdf | p11kit/attribute.go:866-881 | the loop computes the leading bytes of those blocks with exactly ceil(outLen/hLen) hash computations |
| Crypto.CountersWithinLimit | p11kit/attribute.go:871 | the counters are 1, 2, 3, ... if and only if the length is at most (2^32-1)*hLen |
| Crypto.X963Prefix | p11kit/attribute.go:866-881 | shorter outputs are prefixes of longer ones |
| Crypto.ResizeSecret | p11kit/attribute.go:886-897 | keeps the leading bytes or prepends zeros, to exactly n bytes |
| Crypto.ResizedValue | p11kit/attribute.go:883-897 | lengthening keeps the big-endian integer, truncating gives floor(value / 256^(len-n)) |
| Crypto.RawSignatureHalves | p11kit/attribute.go:216-230 | for all integers R and S, a raw signature exists if and only if their magnitudes fit; its halves decode to the magnitudes, so to R and S themselves if and only if neither is negative |
| Crypto.SharedSecret | p11kit/attribute.go:821-839 | a shared secret has the field's width |
| Crypto.SecretFromPoint | p11kit/attribute.go:821-839 | a fixed-width uncompressed point is decoded to its own coordinates, and the secret is the x-coordinate of the product |
| Crypto.TemplateDefaults | p11kit/attribute.go:773-790 | the last usable template entry of each type wins over the default |
| Crypto.Derive | p11kit/attribute.go:749-815 | the loop and checks compute the derived object that `DeriveOutcome` and `DerivedKey` describe |
| Crypto.DeriveOutcome | p11kit/attribute.go:749-806 | a derivation succeeds if and only if every check passes, and otherwise fails with the error of the first that does not, in order |
| Crypto.NoUlong | p11kit/attribute.go:773-790 | without a usable template entry the default counts |
| Crypto.LastUlongAt | p11kit/attribute.go:773-790 | otherwise the last usable entry does |
| Crypto.DerivedKey | p11kit/attribute.go:792-814 | a derived key is well typed, shows the template's class and key type or the defaults, its value is as long as its CKA_VALUE_LEN, after a KDF nothing was resized, and under CKD_NULL the value is the x-coordinate kept or divided |
| Crypto.PartiesAgree | p11kit/attribute.go:749-839 | two parties deriving from each other's points get the same result, given that scalar multiplication commutes; both succeed if and only if the KDF is known, its length positive as an int, and an identifier is drawn |
| Keygen.ReadRsaTemplate | p11kit/attribute.go:576-592 | the loop finds the last modulus size or stops at the first bad exponent |
| Keygen.DefaultToken | p11kit/attribute.go:416-535 | before templates a private key is a token object, a public key has no CKA_TOKEN |
| Keygen.GeneratedPair | p11kit/attribute.go:544-571 | a generated pair has the drawn identifiers, stays well typed, is a token object exactly as its template or the default says, and is found by its own duplicate-free template |
| Handles.ProbeStops | p11kit/p11kit.go:242-249 | pigeonhole: with fewer than 2^64 handles in use the probe cannot find all candidates used |
| Handles.FirstFree | p11kit/p11kit.go:242-249 | the next handle is the first unused one after the last, through wrap-around |
| Handles.FirstFreeUnique | p11kit/p11kit.go:242-249 | there is only one such handle |
| Handles.FirstFreeIsNext | p11kit/p11kit.go:242-249 | while no higher handle is in use it is the next number |
| Handles.ZeroIssued | p11kit/p11kit.go:242-249 | handle 0 is issued if and only if every higher handle is in use and 0 is not |
| Sessions.FindObject | p11kit/p11kit.go:318-325 | an object with the identifier is found whenever there is one |
| Sessions.FailedInSession | p11kit/p11kit.go:777-969 | a request that fails inside a session leaves it unchanged |
| Sessions.FailedServe | p11kit/p11kit.go:722-1065 | so does any failed request that touches one connection only |
| Sessions.SignBranches | p11kit/attribute.go:167-182 | given the invariant, the mechanism is one of the three and the key is of its type, so sign does what a sign without its unsupported-mechanism and wrong-key branches does, and CKR_MECHANISM_INVALID can only come from the signer |
| Sessions.InSessionKeepsOk | p11kit/p11kit.go:777-969 | a session's requests keep its objects well typed and only appended to, and its signing pair zero or supported |
| Sessions.ServeKeepsOk | p11kit/p11kit.go:722-1065 | so for every session of a connection |
| Sessions.AttributeAnswer | p11kit/p11kit.go:298-316 | the answer lists the lookups in the order requested, well typed, with status zero if and only if all types were present, and CKR_ATTRIBUTE_TYPE_INVALID otherwise |
| Sessions.PagesInOrder | p11kit/p11kit.go:349-357 | pages of sizes c1..ck return exactly the first min(n, c1+...+ck) queued matches and leave the rest |
| Sessions.SearchExact | p11kit/p11kit.go:777-833 | a search returns its matches, and nothing else if and only if the queue was empty |
| Sessions.MatchIdsSound | p11kit/p11kit.go:336-347 | the match list holds exactly the identifiers of the objects that match every entry |
| Sessions.MatchIdsAppend | p11kit/p11kit.go:336-347 | and in object order |
| Slots.FindSlot | p11kit/p11kit.go:529-537 | a slot with the identifier is found whenever there is one |
| Slots.Trim | p11kit/p11kit.go:644-646 | a stored label is the given one without its trailing spaces and NULs, and only those |
| Slots.TrimmedOnce | p11kit/p11kit.go:644-646 | which determines it |
| Slots.TrimPadding | p11kit/rpc.go:529-540 | trimming undoes padding |
| Slots.GrowingSlots | p11kit/p11kit.go:529-537 | slots that only grow resolve the same identifiers |
| Machine.NextGrows | p11kit/p11kit.go:1021-1030 | every step of any connection only appends to slots and initializes a token at most once |
| Machine.RunGrows | p11kit/p11kit.go:219-256 | over every interleaving a slot's object list is a prefix of all its later lists, and an initialized token's label never changes |
| Machine.NextKeepsInv | p11kit/p11kit.go:219-279 | every step keeps the invariant: live sessions' slots resolve, their opening snapshots are prefixes of the slots' lists, all objects are well typed, signing pairs are supported |
| Machine.RunKeepsInv | p11kit/p11kit.go:212-279 | it holds in every reachable state |
| Machine.PersistKeepsInv | p11kit/p11kit.go:1021-1030 | the error branch of persistObject is unreachable |
| Machine.FailureAtomic | p11kit/p11kit.go:696-1065 | in every reachable state a request that fails leaves all sessions, handle counters and slots unchanged |
| Visibility.GeneratedPlaced | p11kit/p11kit.go:987-1012 | at its generation an object with a new identifier is in its session alone, waiting to be persisted exactly if it is a token object |
| Visibility.StepPlaced | p11kit/p11kit.go:219-256 | every step of every connection keeps an object exactly where its birth says |
| Visibility.RunPlaced | p11kit/p11kit.go:219-256 | so does every run |
| Visibility.RunUnique | p11kit/p11kit.go:219-256 | over every run whatever has the object's identifier is that object, with the same attributes |
| Visibility.GeneratedVisibility | p11kit/p11kit.go:971-1030 | over every interleaving a generated object, with its attributes, is held exactly by its creating session and by sessions whose snapshot of that slot (without GetObjects) came after the persist step, and on no other slot; it has been persisted if and only if its effective CKA_TOKEN is true and it is not still waiting in its request |
| Runs.SessionStep | p11kit/p11kit.go:281-292 | isolation: a session changes only by a request executed in it and as that request says; every other step of any connection leaves it equal |
| Runs.SignDataAccumulates | p11kit/p11kit.go:927-945 | whatever runs beside it, a session's pending data is what it was plus its own chunks, and without C_SignInit the signing pair stays |
| Runs.SignFinalSigns | p11kit/p11kit.go:947-969 | C_SignFinal signs what was pending plus the chunks, and exactly the chunks if and only if nothing was pending |
| Runs.SearchConserved | p11kit/p11kit.go:336-357 | over every run the pages returned plus the queue are the old queue plus all match lists, in order |
| Runs.TokenOnce | p11kit/p11kit.go:639-648 | over all interleavings a token is initialized at most once, and its label is that request's without its trailing spaces and NULs |
| Runs.TokenInfoPair | p11kit/p11kit.go:485-499 | every C_GetTokenInfo answer of every run, from any configuration, shows the configured label and flag, or the label of the one initialization, without its trailing spaces and NULs, with the flag |
| Runs.LabelField | p11kit/rpc.go:529-540 | the 32-byte field recovers a stored label if and only if it has at most 32 bytes |
| Runs.HandlesCountUp | p11kit/p11kit.go:219-279 | with fewer than 2^64 opens handles count up by one, and a closed or unissued handle stays rejected |
| Runs.NthHandle | p11kit/p11kit.go:219-256 | the k-th successful C_OpenSession of a connection returns handle k |
| Runs.SessionEnds | p11kit/p11kit.go:269-279 | a session ends exactly by its own C_CloseSession or with its connection |
| Runs.ClosedStep | p11kit/p11kit.go:269-279 | C_CloseSession on a live session succeeds, ends it, and changes no other session and no slot |
| Runs.ClosedForGood | p11kit/p11kit.go:258-279 | with fewer than 2^64 opens every later request in a closed session is answered with CKR_SESSION_HANDLE_INVALID and changes nothing, whatever ran in between |
| Runs.NoSession | p11kit/p11kit.go:258-267 | a request in a session that is not open is answered so |
| Runs.FinalChangesNothing | p11kit/p11kit.go:826-833 | C_FindObjectsFinal succeeds whatever session it names, and changes nothing |
| Runs.SessionStarts | p11kit/p11kit.go:219-256 | a session starts exactly when its handle is returned, with the snapshot's objects, or GetObjects' where there is one |
| Runs.OpenBegins | p11kit/p11kit.go:696-713 | C_OpenSession fails without CKF_SERIAL_SESSION or on an unknown slot, and otherwise takes its snapshot |
| Runs.OpenEnds | p11kit/p11kit.go:226-256 | after that it fails exactly when GetObjects does |
| Runs.ReachableSession | p11kit/p11kit.go:219-256 | in every reachable state a session holds a prefix of its slot's list followed by its own objects, all well typed, and a supported or zero signing pair |
| Runs.ReachableSigning | p11kit/p11kit.go:900-969 | after every run C_Sign and C_SignFinal answer with a session error, CKR_KEY_HANDLE_INVALID before any C_SignInit, or what signing gives with neither dead branch |
| Requests.RequestRoundTrip | p11kit/p11kit.go:619-1065 | a client's encoding of a stateful request parses to the request `Make` builds; the rows of `Parsing` say which |
| Parsing.OneNumber | p11kit/p11kit.go:466-474 | the bytes of C_GetTokenInfo, C_CloseSession and C_FindObjectsFinal parse to those requests |
| Parsing.OpenSessionParses | p11kit/p11kit.go:696-704 | so for C_OpenSession: slot, flags |
| Parsing.InitTokenParses | p11kit/p11kit.go:619-631 | C_InitToken: slot, PIN (ignored), label |
| Parsing.GetAttributeValueParses | p11kit/p11kit.go:835-847 | C_GetAttributeValue: session, object, types |
| Parsing.FindObjectsInitParses | p11kit/p11kit.go:777-786 | C_FindObjectsInit: session, template |
| Parsing.FindObjectsParses | p11kit/p11kit.go:798-807 | C_FindObjects: session, count |
| Parsing.SignInitParses | p11kit/p11kit.go:871-883 | C_SignInit: session, mechanism, key |
| Parsing.SignParses | p11kit/p11kit.go:900-914 | C_Sign: session, data |
| Parsing.SignUpdateParses | p11kit/p11kit.go:927-938 | C_SignUpdate: session, data |
| Parsing.SignFinalParses | p11kit/p11kit.go:947-956 | C_SignFinal: session |
| Parsing.GenerateKeyPairParses | p11kit/p11kit.go:971-985 | C_GenerateKeyPair: session, mechanism, public and then private template |
| Parsing.DeriveKeyParses | p11kit/p11kit.go:1032-1045 | C_DeriveKey: session, mechanism, key, template |
| Requests.ParseRequest | p11kit/p11kit.go:619-1065 | whatever parses has well-typed templates |
| Requests.UninterruptedRequest | p11kit/p11kit.go:212-256 | a whole request without interference is a run of the interleaving machine's steps with the same state and answer |
| Requests.AttributeAnswerDecodes | p11kit/p11kit.go:857-868 | a C_GetAttributeValue response decodes to exactly the attributes and the status |
| Requests.ErrorDecodes | p11kit/p11kit.go:419-421 | an error response carries exactly one unsigned long, the code |
| Requests.HandleOne | p11kit/p11kit.go:405-412 | a successful response has the request's call |
| Requests.FailedRequest | p11kit/p11kit.go:401-422 | whatever bytes arrive as a request, an error leaves sessions, handle counter and slots unchanged, and success only grows the slots |
| Outcomes.ParseOutcome | p11kit/rpc.go:438-478 | a request parses if and only if signature and fields are those of its call, and otherwise has an error that ends the connection |
| Outcomes.Dispatched | p11kit/p11kit.go:366-410 | C_Finalize echoes; a call that is not served is answered with CKR_FUNCTION_NOT_SUPPORTED and changes nothing |
| Outcomes.RsaTemplateOutcome | p11kit/attribute.go:576-592 | any bad exponent fails; otherwise the last usable modulus size counts |
| Outcomes.NewKeyOutcome | p11kit/attribute.go:544-632 | which mechanisms and public templates yield a key, and the error of the first failing check |
| Outcomes.KeyPairOutcome | p11kit/attribute.go:558-571 | each object keeps its half of the key and its identifier, and looks up as its own template, or else its list, says |
| Outcomes.PersistedInOrder | p11kit/p11kit.go:997-1011 | token objects are appended to the slot in order |
| Outcomes.GenerateOutcome | p11kit/p11kit.go:987-1016 | the answer names the public and then the private object; the session gets both and the slot the token objects, in that order, and nothing else changes |
| Outcomes.DeriveKeyOutcome | p11kit/p11kit.go:1047-1064 | C_DeriveKey adds the derived object to its session and answers with its handle, or fails as it should |
| Outcomes.SessionOutcome | p11kit/p11kit.go:777-869 | searching and C_SignUpdate always succeed and change only the queue or the data; reading attributes fails exactly on a missing object |
| Outcomes.SignInitOutcome | p11kit/attribute.go:47-65 | C_SignInit succeeds if and only if the key exists, is private and of the mechanism's type; each error otherwise |
| Outcomes.SignOutcome | p11kit/attribute.go:167-231 | signing by mechanism, with the error of each failing check; PKCS #1 and ECDSA take only empty parameters |
| Outcomes.PssOutcome | p11kit/attribute.go:264-295 | RSA-PSS takes exactly three pairs of hash and mask generation function |
| Outcomes.InitTokenOutcome | p11kit/p11kit.go:633-648 | C_InitToken succeeds if and only if the token exists and is not initialized, and changes that slot alone |
| Outcomes.TokenInfoOutcome | p11kit/p11kit.go:476-490 | C_GetTokenInfo fails exactly on an unknown slot |
| Outcomes.NumbersDecode | p11kit/p11kit.go:717-719 | answers made of numbers decode to them, in order |
| Outcomes.SignatureDecodes | p11kit/p11kit.go:922-924 | a signature decodes to its bytes |
| Outcomes.IdsDecode | p11kit/p11kit.go:821-823 | a page of handles decodes to its count and each handle in turn |
| Sizes.RenderSize | p11kit/rpc.go:787-788 | the length of each kind of response body |
| Sizes.ResponseSize | p11kit/rpc.go:787-788 | a response fits its 32-bit length if and only if the request in its session is one that does: a condition on the page, the attributes looked up or the signing key; errors and all other calls always fit |
| Sizes.RepeatedAnswer | p11kit/p11kit.go:835-869 | a C_GetAttributeValue naming one type n times has 32 + 8n bytes, and its response fits if and only if 23 bytes and n entries do |
| Sizes.LargeAnswer | p11kit/rpc.go:787-788 | the failing input: a request of 32,800 bytes that succeeds with a response that does not fit |
| Clients.ObjectsKept | p11kit/p11kit.go:281-292 | an open session never loses or reorders objects |
| Clients.GeneratedFound | p11kit/p11kit.go:777-796 | for the rest of its session's life a generated key is among the matches of its own duplicate-free template |
| Clients.GeneratedFoundWhere | p11kit/p11kit.go:777-796 | over every interleaving, a search for a generated key's own duplicate-free template matches it in exactly the sessions that may see it: its creating one, and those opened on the slot after it was persisted |
| Clients.AttributesSeen | p11kit/p11kit.go:835-869 | in every reachable state the response decodes to exactly the requested lookups in order, with status zero if and only if every type was present |
| Clients.TokenInfoSeen | p11kit/p11kit.go:492-526 | all eighteen fields stand where a client reads them, with their values; the label is recovered if and only if it fits |
| Leftovers.SearchAfterRun | p11kit/p11kit.go:777-833 | after any run since a session was opened, a search returns what earlier ones left and then its own matches: its own alone if and only if every earlier match had been paged |
| Leftovers.ShortPage | p11kit/p11kit.go:349-357 | a page shorter than asked for tells a client that the queue is empty |
| Leftovers.StaleSearch | p11kit/p11kit.go:777-833 | from a new connection: search, C_FindObjectsFinal, search again also returns the first search's matches |
| Leftovers.SignatureAfterRun | p11kit/p11kit.go:871-969 | after any run since a session was opened, a signature is over the chunks since its own C_SignInit if and only if the session had no data before it |
| Leftovers.StaleSignature | p11kit/p11kit.go:871-969 | from a new connection: sign d1 in parts, C_SignInit, sign d2 in parts signs d1 followed by d2 |
| Handlers.Server.FindSlotIndex | p11kit/p11kit.go:529-537 | the loop finds the first slot with the identifier, or CKR_SLOT_ID_INVALID |
| Handlers.Server.PersistObject | p11kit/p11kit.go:1021-1030 | appends the object to that slot and changes nothing else |
| Handlers.Server.InitToken | p11kit/p11kit.go:633-648 | sets the trimmed label once, or fails and changes nothing |
| Handlers.Server.TokenInfoOf | p11kit/p11kit.go:474-490 | reads label and flag together |
| Handlers.LiveSession.ObjectWith | p11kit/p11kit.go:318-325 | the loop finds the first object with the identifier |
| Handlers.LiveSession.Find | p11kit/p11kit.go:336-347 | the nested loops append the match list to the queue |
| Handlers.LiveSession.FindNext | p11kit/p11kit.go:349-357 | takes a page off the queue |
| Handlers.LiveSession.AttributeValue | p11kit/p11kit.go:298-316 | the loop collects the lookups and whether all were present |
| Handlers.LiveSession.SignInit | p11kit/p11kit.go:888-897 | sets the signing pair, or fails and keeps the previous one |
| Handlers.LiveSession.DeriveKey | p11kit/p11kit.go:1052-1060 | appends the derived key, or fails and changes nothing |
| Handlers.LiveSession.Answer | p11kit/p11kit.go:777-1065 | each handler's body changes the session and answers as the request's function says |
| Handlers.Handler.NextFree | p11kit/p11kit.go:242-249 | the probing loop terminates from every state and returns the first free handle |
| Handlers.Handler.NewSession | p11kit/p11kit.go:219-256 | opens a session on the snapshot or on GetObjects' result, or fails and changes nothing |
| Handlers.Handler.CloseSession | p11kit/p11kit.go:269-279 | removes the session, and fails exactly when there is none |
| Handlers.Handler.ServeLocal | p11kit/p11kit.go:722-969 | one connection's request changes one session and no other |
| Handlers.Handler.Generate | p11kit/p11kit.go:987-1018 | appends both keys to the session and the token objects to its slot, in order |
| Handlers.Handler.Perform | p11kit/p11kit.go:696-1065 | a request after parsing |
| Dispatch.ReadRequestBody | p11kit/p11kit.go:619-1065 | every stateful handler's reads, in order, then err(), parse exactly the request |
| Dispatch.ReadInitToken | p11kit/p11kit.go:619-631 | C_InitToken's three reads |
| Dispatch.ReadGetAttributeValue | p11kit/p11kit.go:835-847 | C_GetAttributeValue's three reads |
| Dispatch.ReadSignInit | p11kit/p11kit.go:871-883 | C_SignInit's three reads |
| Dispatch.ReadGenerateKeyPair | p11kit/p11kit.go:971-985 | C_GenerateKeyPair's four reads |
| Dispatch.ReadDeriveKey | p11kit/p11kit.go:1032-1045 | C_DeriveKey's four reads |
| Dispatch.WriteAnswer | p11kit/p11kit.go:716-1064 | every stateful handler's response is written as its fields say |
| Dispatch.WriteTokenInfo | p11kit/p11kit.go:492-527 | C_GetTokenInfo's eighteen fields |
| Messages.FrameRoundTrip | p11kit/rpc.go:738-800 | a framed message with any options and any suffix reads back if and only if options and body fit their 32-bit lengths |
| Messages.ReadRequest | p11kit/rpc.go:760-785 | reads one frame, ignoring its options, or fails exactly when there is none |
| Messages.WriteResponse | p11kit/rpc.go:787-800 | writes the response's frame, without options |
| Messages.AnswerOf | p11kit/p11kit.go:411-422 | a success is answered by itself; a PKCS #11 error by a body in which a client reads exactly its code |
| Messages.DispatchOne | p11kit/p11kit.go:366-410 | the call's handler, the fallback, or the echo of C_Finalize |
| Messages.Respond | p11kit/p11kit.go:411-425 | answers a PKCS #11 error with one code, anything else with the response |
| Messages.Handle | p11kit/p11kit.go:400-427 | the loop serves the stream: every request taken is handled in turn and answered, until C_Finalize, an unreadable request or an error that is no PKCS #11 code, whatever other connections make of the slots in between |
| Messages.ErrorsChangeNothing | p11kit/p11kit.go:401-422 | along a whole stream every request that ends in an error leaves the state as it found it, whatever other connections do between the requests |
| Messages.StreamRoundTrip | p11kit/rpc.go:760-785 | any concatenation of framed messages parses back to the same requests in order |
| Messages.RequestsInOrder | p11kit/p11kit.go:400-405 | the loop takes a client's requests in order, and all of them if it ends for want of more |
| Messages.ResponsesRoundTrip | p11kit/rpc.go:787-800 | a stream of responses parses back to them if and only if every body fits its 32-bit length |
| Messages.Lockstep | p11kit/p11kit.go:400-427 | the output is exactly one response per request answered, with the request's message identifier and either the outcome under the request's call or an error read as exactly the outcome's code; it parses as those responses if and only if each request, in the session it met, is one whose response fits |
| Messages.LockstepFails | p11kit/rpc.go:787-800 | the failing input: after a request of 32,800 bytes the output does not parse as its response |

## Left out

- The libraries below the module: RSA and ECDSA signing, key generation, hashing, curve arithmetic, ASN.1 and X.509 encodings. Their results are parameters (`Signer`, `KeyEnv`, `KeyGen`, `Der`, `Certificate`), different for each request; recognising a digest prefix for RSA PKCS #1 and choosing a PSS hash are part of the abstract signer.
- Random object identifiers are parameters too. Only `Visibility` assumes anything of them: that an identifier followed through a run is not drawn again in it.
- Objects named by `SetID` or returned by GetObjects may share identifiers; lookups then take the first, as in the source.
- The stateless handlers (C_Initialize, C_GetInfo, slot and mechanism lists and details, C_GetSessionInfo, C_Login, C_Logout, the random number calls): any answer that changes nothing, given by a parameter. They would add only easy members.
- Protocol version negotiation, sockets, partial reads and writes, and logging: a connection is its input and the output written.
- Data races on fields read outside the lock, and sharing of a slice returned by GetObjects with its owner: code outside the critical sections is local to its connection, and GetObjects returns a list no one else changes.
- The classes run one request at a time: other connections act on the slots between a connection's requests (`Environment.others`), and inside a request only in `Machine`, whose local requests are single steps because they touch no shared state.
- The time of day and the location of a date; a date is its year, month and day, which is all that is read from it.
- Failed allocations and panics, such as a derived key or an attribute array of an absurd announced length.
- The tables of names and error messages, and which of several parse errors a body reports beyond their kind.
- Attributes holding a list of mechanisms: they encode as the source encodes them, but the source's reader rejects their type, so they are outside the round trips.
- Dispatch.ReadRequestBody: each handler is split into its reads, its effect and its response, where the source has one method; the order of effects is the same.
- Messages.Handle: requires the live sessions plus the input's length to stay below 2^64, so that the handle probe always stops.
- Messages.Lockstep: the lengths of RSA signatures and of the stateless handlers' answers come from parameters; RSA signatures are assumed as long as the modulus (sections 8.1.1 and 8.2.1 of RFC 8017).
- Encodings.FieldRoundTrip: is about what a client may send; a value that cannot be sent, such as an attribute outside the codec's bounds, has no round trip.
