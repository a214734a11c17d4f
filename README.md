# Bank cards: card lifecycle, block requests, transfers and card numbers

A Dafny model of the business core of a Spring bank-card service:

- **Card service** (`CardService`): issuing, blocking, activating and deleting cards; the block-request workflow; recording transfers.
- **User service** (`UserService`): activating, deactivating and changing the role of a user, and a user's total card balance.
- **Card numbers** (`CardGenerator`): the generator and its check digit.
- **Card-number column** (`EncryptedStringConverter`): the converter that encrypts the stored card number.
- **Response records** (`Dto`): the masking of card numbers.
- **Paging** (`PageUtil`): the sort-argument validation.
- **Entities** (`Entities`): the records with their JPA lifecycle hooks and their `equals`/`hashCode`.

The repositories are one `Database` object (`Repositories`). It holds one map from id to row per table, and the next value of each IDENTITY column. Each service is a class holding that database. Each service method either fails with a `ServiceError`, writing nothing, or writes exactly what the Java code saves. Its `modifies` clause names the tables it may write, field by field.

Inputs the Java code reads from its environment are parameters:

- `now` is the clock reading (`OffsetDateTime.now()`).
- `draws` and `visa` are what `SecureRandom` returns to the card-number generator.
- `entropy` is the 12-byte nonce `nextBytes` fills.
- The primitives record holds AES-GCM (NIST SP 800-38D), Base64 (section 4 of RFC 4648) and UTF-8 as function values. `RoundTrips` states the round trips they are trusted to provide. A lemma relies on them only when it says so in its `requires`.

Money is `real`. Timestamps are calendar instants (`Time.Instant`).

What the code does that a reader might not expect:

- **Check digit.** `calculateLuhnChecksum` is not the Luhn check digit of ISO/IEC 7812-1, Annex B. Its loop starts with `alternate = false`, so the rightmost digit of the partial number is not doubled. The generated numbers are therefore in general not Luhn-valid. `NotStandardLuhn`: 411111111111111 gets check digit 5, and Luhn would give 1.
- **Transfers.** `sendTransfer` only records a `Transfer` row: no balance is debited or credited. It does not check that the amount is positive or that the two cards differ. The balance test is a strict `<`, so the whole balance may be sent.
- **Block requests.** A request is not processed exactly once. Approval refuses only an APPROVED request, and declining refuses only a REJECTED one, so a request can go back and forth. `processedBy` is always the requester. Approval does not block the card.
- **EXPIRED cards.** `blockCard` accepts an EXPIRED card, and `activateCard` turns an EXPIRED card back to ACTIVE. A transfer is refused only for BLOCKED cards.
- **Uniqueness of card numbers.** The `unique` constraint sits on the encrypted column. Every encryption draws a fresh nonce, so equal card numbers are stored as different values (`DistinctNoncesDistinctColumns`). The constraint therefore rejects a duplicate plaintext number only if the two random nonces coincide, and `createCard` checks none.
- **`updatedAt` on block and activate.** Saving a modified card runs `@PreUpdate`, so `blockCard` and `activateCard` also set `updatedAt`. Apart from that they change only the status.

## Model

| member | source | states |
|---|---|---|
| Time.PlusYears | src/main/java/com/example/bankcards/service/impl/CardServiceImpl.java:52 | adding years keeps the month and the time of day, keeps the day except that 29 February becomes 28 February in a non-leap year, and for a positive count gives a later instant |
| Entities.CardOnCreate | src/main/java/com/example/bankcards/entity/Card.java:59-63 | the persist hook sets createdAt and updatedAt to the clock reading and leaves every other field as it was |
| Entities.CardOnUpdate | src/main/java/com/example/bankcards/entity/Card.java:65-68 | the update hook sets updatedAt only; createdAt, a non-updatable column, and every other field are kept |
| Entities.StringHashCode | src/main/java/com/example/bankcards/entity/Card.java:85 | String.hashCode is 0 for the empty string and agrees modulo 2^32 with the documented polynomial s[0]·31^(n−1) + … + s[n−1] |
| Entities.LongHashCode | src/main/java/com/example/bankcards/entity/CardBlockRequest.java:63 | Long.hashCode of an id below 2^31 is the id itself |
| Entities.CardEquals | src/main/java/com/example/bankcards/entity/Card.java:74-81 | two cards with different ids and the same number are equal, and equal cards have equal hash codes |
| Entities.CardHashCode | src/main/java/com/example/bankcards/entity/Card.java:83-86 | a card's hash code is the documented String hash polynomial of its number, modulo 2^32 |
| Entities.CardEqualsContract | src/main/java/com/example/bankcards/entity/Card.java:74-86 | card equality, which compares card numbers only, is reflexive, symmetric and transitive, and equal cards have equal hash codes |
| Entities.RequestOnCreate | src/main/java/com/example/bankcards/entity/CardBlockRequest.java:44-47 | the persist hook sets requestDate and nothing else |
| Entities.RequestEquals | src/main/java/com/example/bankcards/entity/CardBlockRequest.java:53-59 | two requests with the same id are equal whatever their status, and equal requests have equal hash codes |
| Entities.RequestHashCode | src/main/java/com/example/bankcards/entity/CardBlockRequest.java:61-64 | a request with an id below 2^31 hashes to its id |
| Entities.RequestEqualsContract | src/main/java/com/example/bankcards/entity/CardBlockRequest.java:53-64 | request equality by id is an equivalence and agrees with the Long hash code of the id |
| Entities.TransferOnCreate | src/main/java/com/example/bankcards/entity/Transfer.java:41-44 | the persist hook sets transferDate and nothing else |
| Entities.TransferEquals | src/main/java/com/example/bankcards/entity/Transfer.java:46-52 | two transfers with the same id are equal whatever their amount, and equal transfers have equal hash codes |
| Entities.TransferHashCode | src/main/java/com/example/bankcards/entity/Transfer.java:54-57 | a transfer with an id below 2^31 hashes to its id |
| Entities.TransferEqualsContract | src/main/java/com/example/bankcards/entity/Transfer.java:46-57 | transfer equality by id is an equivalence and agrees with the Long hash code of the id |
| CardGenerator.JavaRem10 | src/main/java/com/example/bankcards/util/CardGenerator.java:52 | Java's `% 10` gives a value strictly between -10 and 10 that differs from its argument by a multiple of 10; it is the mathematical remainder for a non-negative argument and the negated remainder of the absolute value, never positive, for a negative one |
| CardGenerator.Contribution | src/main/java/com/example/bankcards/util/CardGenerator.java:41-46 | a digit contributes 0..9: itself when not doubled, 2·digit when doubled and at most 4, and 2·digit − 9 when doubled past 9 |
| CardGenerator.Checksum | src/main/java/com/example/bankcards/util/CardGenerator.java:52 | the check digit lies in 0..9 and brings the generator's weighted sum of the partial number to a multiple of 10 |
| CardGenerator.CalculateLuhnChecksum | src/main/java/com/example/bankcards/util/CardGenerator.java:34-54 | the right-to-left loop that doubles every second digit, starting with the second digit visited, returns the check digit `Checksum` specifies, in 0..9 |
| CardGenerator.GenerateCardNumberWithPrefix | src/main/java/com/example/bankcards/util/CardGenerator.java:20-32 | the number built is the decimal prefix, then the fourteen drawn digits, then the check digit of everything before it |
| CardGenerator.GenerateCardNumber | src/main/java/com/example/bankcards/util/CardGenerator.java:15-18 | the number has 16 decimal digits: first 4 (Visa) or 5 (Mastercard), then the drawn digits, and last the check digit of the first fifteen |
| CardGenerator.SingleDigitPrefixShape | src/main/java/com/example/bankcards/util/CardGenerator.java:20-32 | with a one-digit prefix the first fifteen characters are exactly what the checksum was computed on, and the weighted sum plus the final digit is a multiple of 10 |
| CardGenerator.NotStandardLuhn | src/main/java/com/example/bankcards/util/CardGenerator.java:34-54 | the partial number 411111111111111 gets check digit 5; the resulting number fails the ISO/IEC 7812-1 validity test, which the check digit 1 would pass |
| EncryptedStringConverter.Unframe | src/main/java/com/example/bankcards/util/EncryptedStringConverter.java:58-62 | splitting stored bytes succeeds exactly when there are at least 12, into a 12-byte nonce and the remaining length − 12 bytes |
| EncryptedStringConverter.UnframeFrame | src/main/java/com/example/bankcards/util/EncryptedStringConverter.java:46-62 | the split decrypt performs recovers exactly the nonce and the cipher output that encrypt concatenated |
| EncryptedStringConverter.FrameUnframe | src/main/java/com/example/bankcards/util/EncryptedStringConverter.java:58-62 | concatenating the two parts of a split gives back the stored bytes |
| EncryptedStringConverter.EncryptSpec | src/main/java/com/example/bankcards/util/EncryptedStringConverter.java:35-54 | encryption fails, with EncryptionFailed, exactly when the cipher call fails |
| EncryptedStringConverter.DecryptSpec | src/main/java/com/example/bankcards/util/EncryptedStringConverter.java:56-75 | decryption fails, always with DecryptionFailed, exactly when the Base64 is rejected, there are fewer than 12 bytes, or the cipher rejects the rest |
| EncryptedStringConverter.ArrayCopy | src/main/java/com/example/bankcards/util/EncryptedStringConverter.java:60-62 | System.arraycopy succeeds exactly when both ranges are in bounds and the length is non-negative; then it overwrites exactly the target range with the source range, otherwise it leaves the target alone |
| EncryptedStringConverter.Encrypt | src/main/java/com/example/bankcards/util/EncryptedStringConverter.java:35-54 | the array-based encryption returns what EncryptSpec describes |
| EncryptedStringConverter.Decrypt | src/main/java/com/example/bankcards/util/EncryptedStringConverter.java:56-75 | the array-based decryption returns what DecryptSpec describes |
| EncryptedStringConverter.ConvertToDatabaseColumn | src/main/java/com/example/bankcards/util/EncryptedStringConverter.java:23-27 | null stays null; any other value is encrypted, and an encryption failure is passed on |
| EncryptedStringConverter.ConvertToEntityAttribute | src/main/java/com/example/bankcards/util/EncryptedStringConverter.java:29-33 | null stays null; any other value is decrypted, and a decryption failure is passed on |
| EncryptedStringConverter.EncryptLayout | src/main/java/com/example/bankcards/util/EncryptedStringConverter.java:37-50 | the stored value decodes to the nonce followed by the cipher output of the UTF-8 bytes |
| EncryptedStringConverter.DecryptEncrypt | src/main/java/com/example/bankcards/util/EncryptedStringConverter.java:23-75 | decrypting what encryption stored gives back the plaintext, given the cipher, Base64 and UTF-8 round trips |
| EncryptedStringConverter.DistinctNoncesDistinctColumns | src/main/java/com/example/bankcards/util/EncryptedStringConverter.java:37-50 | the same plaintext encrypted under two different nonces is stored as two different values |
| PageUtil.Fold | src/main/java/com/example/bankcards/util/PageUtil.java:19 | the text the direction parse compares is the argument lower-cased and then upper-cased, character by character |
| PageUtil.ParseDirection | src/main/java/com/example/bankcards/util/PageUtil.java:17-22 | the direction is ASC exactly when the folded text is "ASC", DESC exactly when it is "DESC", and rejected otherwise |
| PageUtil.SetPage | src/main/java/com/example/bankcards/util/PageUtil.java:12-25 | the page request is built exactly when the sort field is allowed and the direction parses; the field is checked first; page, size and field pass through with the parsed direction |
| PageUtil.ParseDirectionAscii | src/main/java/com/example/bankcards/util/PageUtil.java:17-22 | on ASCII text the direction is accepted exactly when it reads "asc" or "desc" in any mix of cases |
| PageUtil.DefaultCardPage | src/main/java/com/example/bankcards/controller/AdminController.java:127-130 | the default arguments (page 0, size 10, "id", "asc") give an ascending page sorted by id for the card listing |
| PageUtil.ListingsHaveTheirOwnFields | src/main/java/com/example/bankcards/service/impl/CardServiceImpl.java:43-44 | the request and user listings reject sorting by balance and the card listing by username, while the request listing sorts by status and the user listing by role |
| PageUtil.LongSIsAccepted | src/main/java/com/example/bankcards/util/PageUtil.java:19 | U+017F LATIN SMALL LETTER LONG S is accepted in place of an s, so "aſc" parses as ascending |
| Dto.MaskCardNumber | src/main/java/com/example/bankcards/dto/CardResponseDto.java:28-35 | the mask is 19 characters starting "**** **** **** "; a missing or shorter-than-4 number gives all stars, and otherwise the last 4 characters of the number follow |
| Dto.MaskRevealsOnlyLastFour | src/main/java/com/example/bankcards/dto/CardResponseDto.java:28-35 | two numbers with the same last four characters mask identically, so nothing else is revealed |
| Dto.CardResponseFromEntity | src/main/java/com/example/bankcards/dto/CardResponseDto.java:14-25 | the response copies id, balance and creation time, names the owner "first last", gives the status name, and shows exactly the mask of the card number |
| Dto.CardProcessFromEntity | src/main/java/com/example/bankcards/dto/CardProcessDto.java:6-13 | the request response carries the request id, the requester's username, the card number unmasked, and the status name |
| Dto.TransferFromEntity | src/main/java/com/example/bankcards/dto/TransferDto.java:8-10 | the transfer response carries the source and target card ids, the amount and the transfer date |
| Dto.UserFromEntity | src/main/java/com/example/bankcards/dto/UserDto.java:16-27 | the user response copies id, username, names, email, phone and active flag, and gives the role name |
| Dto.NamesIdentifyStates | src/main/java/com/example/bankcards/dto/CardProcessDto.java:11 | distinct card statuses, request statuses and roles have distinct names, so the text in a response determines the state |
| Repositories.RequestsWithoutCard | src/main/java/com/example/bankcards/entity/Card.java:56-57 | deleting a card removes exactly its own block requests and keeps the others unchanged |
| Repositories.TransfersWithoutCard | src/main/java/com/example/bankcards/entity/Card.java:50-54 | deleting a card removes exactly the transfers from or to it and keeps the others unchanged |
| Repositories.Database.TotalBalance | src/main/java/com/example/bankcards/repository/CardRepository.java:16 | the sum of the balances of the user's cards is 0 when the user owns no card, and not negative when no card balance is |
| Repositories.BalanceBounds | src/main/java/com/example/bankcards/repository/CardRepository.java:16 | the sum is 0 without cards of the user and not negative without negative balances, as implications for any bound |
| Repositories.BalanceOfNoCards | src/main/java/com/example/bankcards/repository/CardRepository.java:16 | the total balance of a user without cards is 0 |
| Repositories.BalanceNonNegative | src/main/java/com/example/bankcards/repository/CardRepository.java:16 | with no negative card balance, a user's total is not negative |
| Repositories.BalanceFrame | src/main/java/com/example/bankcards/repository/CardRepository.java:16 | the total depends only on what each of the user's cards holds |
| Repositories.BalanceReplace | src/main/java/com/example/bankcards/repository/CardRepository.java:16 | changing one card changes the owner's total by the difference of what that card contributes |
| Repositories.BalanceExtend | src/main/java/com/example/bankcards/repository/CardRepository.java:16 | ids beyond every stored card add nothing, so the total covers all of a user's cards |
| CardService.TransferCheck | src/main/java/com/example/bankcards/service/impl/CardServiceImpl.java:158-169 | a transfer passes exactly when both cards exist, the user owns both, neither is BLOCKED and the amount does not exceed the sender's balance; otherwise the first failing check, in the order card existence, ownership, BLOCKED status, balance, names the error: CardNotFound, NotUserCard, CardBlocked or NotEnoughBalance, each exactly when the earlier checks pass and its own fails |
| CardService.TransferCheckBoundaries | src/main/java/com/example/bankcards/service/impl/CardServiceImpl.java:167 | the balance test is strict: sending the whole balance, even to the same card, passes, one more is NotEnoughBalance, and a negative amount passes when the balance is not negative |
| CardService.ExpiredCardsTransfer | src/main/java/com/example/bankcards/service/impl/CardServiceImpl.java:164-169 | between two EXPIRED cards of the user a transfer passes exactly when the balance covers the amount |
| CardService.CardService.CreateCard | src/main/java/com/example/bankcards/service/impl/CardServiceImpl.java:46-57 | an unknown user is UserNotFound and no card is stored; otherwise exactly one new ACTIVE card with the generated number, balance 10000 and expiry five years on is stored for that user, and only that user's total grows, by 10000 |
| CardService.CardService.BlockCard | src/main/java/com/example/bankcards/service/impl/CardServiceImpl.java:59-69 | unknown card: CardNotFound; BLOCKED card: CardAlreadyBlocked; both save nothing. An ACTIVE or EXPIRED card becomes BLOCKED with updatedAt stamped and nothing else changed; totals are unchanged |
| CardService.CardService.ActivateCard | src/main/java/com/example/bankcards/service/impl/CardServiceImpl.java:71-81 | unknown card: CardNotFound; ACTIVE card: CardAlreadyActive; both save nothing. A BLOCKED or EXPIRED card becomes ACTIVE with updatedAt stamped and nothing else changed; totals are unchanged |
| CardService.CardService.DeleteCard | src/main/java/com/example/bankcards/service/impl/CardServiceImpl.java:83-86 | the card, its block requests and its transfers are removed (an unknown id changes nothing), and the owner's total drops by the card's balance |
| CardService.CardService.ApproveRequest | src/main/java/com/example/bankcards/service/impl/CardServiceImpl.java:102-114 | unknown request: RequestNotFound; APPROVED request: RequestAlreadyApproved; both save nothing. Any other request becomes APPROVED, processed by its requester at the clock reading; cards are untouched |
| CardService.CardService.DeclineRequest | src/main/java/com/example/bankcards/service/impl/CardServiceImpl.java:116-128 | unknown request: RequestNotFound; REJECTED request: RequestAlreadyDenied; both save nothing. Any other request becomes REJECTED, processed by its requester at the clock reading; cards are untouched |
| CardService.CardService.SendRequest | src/main/java/com/example/bankcards/service/impl/CardServiceImpl.java:137-154 | CardNotFound, then NotUserCard, then CardAlreadyBlocked, saving nothing; otherwise exactly one PENDING request for the card, by its owner, dated now, is stored, and cards are untouched |
| CardService.CardService.SendTransfer | src/main/java/com/example/bankcards/service/impl/CardServiceImpl.java:156-179 | fails exactly when TransferCheck does, with its error, storing nothing; otherwise stores exactly one RUB transfer of the amount with the description; no card changes on either path |
| UserService.UserService.DeactivateUser | src/main/java/com/example/bankcards/service/impl/UserServiceImpl.java:61-71 | unknown user: UserNotFound; inactive user: UserAlreadyDeactivated; both save nothing; otherwise only isActive changes, to false |
| UserService.UserService.ActivateUser | src/main/java/com/example/bankcards/service/impl/UserServiceImpl.java:73-83 | unknown user: UserNotFound; active user: UserAlreadyActive; both save nothing; otherwise only isActive changes, to true |
| UserService.UserService.AddRoleToUser | src/main/java/com/example/bankcards/service/impl/UserServiceImpl.java:85-95 | unknown user: UserNotFound; same role: UserAlreadyHasRole; both save nothing; otherwise only the single role is replaced |
| UserService.UserService.GetUserWithBalance | src/main/java/com/example/bankcards/service/impl/UserServiceImpl.java:97-104 | fails with UserNotFound exactly for an unknown user; otherwise returns the user with the sum of their card balances, 0 when they have no card and not negative when no balance is |
| Scenarios.TransferScenario | src/main/java/com/example/bankcards/service/impl/CardServiceImpl.java:156-179 | after two cards are issued to a user, sending one card's whole balance to the other is accepted, the sender keeps 10000 and the user's total stays 20000 |
| Scenarios.BlockRequestScenario | src/main/java/com/example/bankcards/service/impl/CardServiceImpl.java:102-128 | a block request approved once is refused a second approval with RequestAlreadyApproved, can still be declined, and its card stays ACTIVE |

## Left out

- Double arithmetic: balances and amounts are reals, so rounding, NaN and infinities of Java's `Double` are not modelled.
- Clock: each operation reads the clock once in the model (`now`); the Java code calls `OffsetDateTime.now()` separately in `onCreate` and in the service, and those readings may differ by nanoseconds. Zone offsets and sub-second precision are not modelled.
- Entropy and keys: `SecureRandom` draws are parameters. The hex decoding of the configured key is not modelled; the key is the decoded bytes.
- Cipher internals: AES-GCM, Base64 and UTF-8 are opaque functions; their round trips are the predicate `RoundTrips`, which a lemma relies on only through its `requires`. Strings with unpaired surrogates, which UTF-8 encoding does not round-trip in Java, are not modelled.
- Time.PlusYears: models `plusYears` on the calendar date only; the offset and nanoseconds are not carried.
- Dto.CardResponseFromEntity: keeps createdAt as the timestamp rather than the text `toString()` produces.
- CardGenerator.NumericValue: covers only digits and the minus sign, the only characters the generator passes; `getNumericValue` of letters is not modelled.
- Entity ids are unbounded naturals: the overflow of the `Long` IDENTITY counters is not modelled, and neither is equality on a not-yet-assigned (null) id.
- Paging: `getAllCards`, `getAllCardRequests`, `getAllCardsByUser` and `getAllUsers` are only their `setPage` validation; `findAll`, `findAllByOwner` and the range checks of `PageRequest.of` on page and size are library behaviour. Null arguments are not modelled: a null sort field is simply not in the allow-list (`Arrays.asList(...).contains(null)` is false), so it fails like any other disallowed field, while a null sort direction throws a NullPointerException from `toLowerCase`, which the `IllegalArgumentException` handler does not catch.
- PageUtil.Fold: maps only ASCII letters and U+017F (long s, upper-cased to `S`); Java's `toLowerCase()` and `toUpperCase(Locale.US)` map all of Unicode and may change the length (`ß` becomes `SS`). No other character folds into a text equal to `ASC` or `DESC`, so which directions are accepted is unaffected.
- Card numbers are plaintext in the card rows: the services never run the converter, so an encryption or decryption failure (the `IllegalStateException` of `EncryptedStringConverter.java:52` and `:73`) never makes `createCard` or a card lookup fail in the model. The converter and its failures are modelled on their own in `EncryptedStringConverter`.
- Exception messages: errors are the `ServiceError` and `ConverterError` kinds, without message text; the mapping to HTTP responses is not modelled.
- Strings are sequences of Unicode scalar values, not of UTF-16 code units as in Java: for text with supplementary characters, `length` and `substring` in `maskCardNumber` and the characters `String.hashCode` (`Entities.StringHashCode`) iterates over differ from Java's.
- User.java is not part of this model; the `User` record has the fields the services and `UserDto` read.
- Login, JWT handling, password hashing, security configuration, controllers and Swagger are not modelled.
- Transactions and concurrency: each operation runs as one atomic step; `@Transactional` isolation, locking and concurrent interleavings are not modelled.
- Lazy loading and the JPA session: the services are modelled as reading and writing whole rows of the maps.
