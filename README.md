# MultiLogin login verification, modelled in Dafny

MultiLogin lets a game server accept players verified by several Yggdrasil identity
backends. After a backend has vouched for a login, the server does four things:

- it checks the login against the stored user entries;
- it writes the entry;
- it reconciles the login with the players already online;
- it admits or kicks the connection.

This project models two parts of that system:

- the verification pipeline `VerifyAuthCore.verifyAuth`, together with its
  redirect-UUID collision loop `getRepeatUuid`;
- the backend descriptor `YggdrasilService`:
  - its constructor checks and `integrity()`;
  - `equals`/`hashCode`;
  - the request builders `buildUrl`/`buildPostContent`;
  - the part of `java.text.MessageFormat` that those builders use.

Files:

- `wrappers.dfy` holds `Option`, `Result` and `Outcome`. `None` stands for Java's null. `Failure`/`Fail` stands for a thrown exception.
- `message_template.dfy` (module `MessageTemplate`) models MessageFormat on pattern text:
  - quotes;
  - `{n}` argument slots;
  - the `Integer.MAX_VALUE` bound on argument numbers;
  - arguments out of range, which are written as `{n}`.

  It characterises the patterns MessageFormat rejects on the text itself, proves a parse/spell round trip, and proves that formatting reads only the slots a pattern names.
- `yggdrasil_service.dfy` (module `YggdrasilService`) models the descriptor as an immutable value:
  - construction is a function returning `Result`;
  - the fall-through switch of `integrity()` is checked against a declarative per-server-type `Requirements`;
  - `equals`/`hashCode` include Java's 32-bit hash arithmetic.
- `verify_auth_core.dfy` (module `VerifyAuthCore`) has two halves:
  - `Verify` states the pipeline as a function. It maps the state before a login (user store, pending-whitelist cache, online players, kicks performed) to the state after it and the result.
  - The class `Core` holds that state in fields and runs the pipeline step by step as the Java method does, except for the corrected same-name sweep (see "## Findings"). `Core.VerifyAuth` is proved to end in exactly the state and result `Verify` gives.
- `verify_auth_properties.dfy` (module `VerifyAuthProperties`) proves the pipeline's policies about `Verify`, and through `Core.VerifyAuth`'s postcondition about every run:
  - the checks, in order;
  - exactly one write, keyed by online UUID;
  - whitelist consumption;
  - store invariants;
  - redirect-UUID uniqueness under convRepeat;
  - the session sweep;
  - refusing or replacing a repeated login.

Where the code's behaviour is surprising, the model follows the code:

- `integrity()` never validates `postContent` outside CUSTOM, nor the ip patterns. So the builders can still fail, and they return `Result`.
- A null `postMode` with `passIp` set on a non-CUSTOM backend passes the null checks. It then fails when unboxed (`NullUnboxed`).
- The same-name sweep is the one place where the model does not follow the code; see "## Findings". `Verify` and `Core.VerifyAuth` use the corrected sweep. `VerifyAsWritten` and `VerifyAuthProperties.NameSweepAsWritten` state the sweep as written, for every login.

## Model

| member | source | states |
|---|---|---|
| `MessageTemplate.Format` | core/src/main/java/moe/caa/multilogin/core/yggdrasil/YggdrasilService.java:87-91 | MessageFormat.format fails (throws IllegalArgumentException) exactly on the illegal patterns: an unquoted `{` with no later `}`, or whose text up to the first `}` is not a decimal number within Integer.MAX_VALUE; otherwise it is the parsed pattern with the arguments substituted |
| `MessageTemplate.Parse` | core/src/main/java/moe/caa/multilogin/core/yggdrasil/YggdrasilService.java:88 | applyPattern rejects a pattern exactly when it is illegal in the sense above, where quotes (a lone `'` toggles, `''` is a literal quote) decide which braces are unquoted |
| `MessageTemplate.Render` | core/src/main/java/moe/caa/multilogin/core/yggdrasil/YggdrasilService.java:118 | substitution leaves a pattern without argument slots as its literal characters, one per segment; with `RenderConcat`, `RenderSlot` and `RenderLiteral` it is fixed segment by segment |
| `MessageTemplate.ParseSpell` | core/src/main/java/moe/caa/multilogin/core/yggdrasil/YggdrasilService.java:88 | every pattern of literals other than a quote or `{` and of `{n}` slots with n at most Integer.MAX_VALUE, written out as text, parses back to itself (quote and `{` literals, which need quoting to be written, are not covered) |
| `MessageTemplate.PlainTextVerbatim` | core/src/main/java/moe/caa/multilogin/core/yggdrasil/YggdrasilService.java:120 | a pattern with no quote and no `{` formats to itself, whatever the arguments |
| `MessageTemplate.RenderReadsOnlySlots` | core/src/main/java/moe/caa/multilogin/core/yggdrasil/YggdrasilService.java:118 | two argument lists of the same length that agree on every slot the pattern names give the same text |
| `MessageTemplate.RenderConcat` | core/src/main/java/moe/caa/multilogin/core/yggdrasil/YggdrasilService.java:118 | formatting a pattern made of two parts gives the first part's text followed by the second's |
| `MessageTemplate.RenderSlot` | core/src/main/java/moe/caa/multilogin/core/yggdrasil/YggdrasilService.java:118 | argument slot i is written as the i-th argument, or as `{i}` when there are fewer arguments |
| `MessageTemplate.RenderLiteral` | core/src/main/java/moe/caa/multilogin/core/yggdrasil/YggdrasilService.java:118 | a literal segment is written as its own character, whatever the arguments |
| `YggdrasilService.Integrity` | core/src/main/java/moe/caa/multilogin/core/yggdrasil/YggdrasilService.java:70-92 | the fall-through checks pass exactly when the body meets its server type's requirements and the url formats; each getOrThrow that is reached on a null field names its key (serverType, postMode, postContent, url, passIp, passIpContentByPost, passIpContent) in switch order; a null postMode read by the default arm is a null unboxing; once every null check passes, a null or unparsable url, and only that, gives the illegal-url error |
| `YggdrasilService.New` | core/src/main/java/moe/caa/multilogin/core/yggdrasil/YggdrasilService.java:38-50 | construction succeeds exactly when all ten fields are non-null and the body meets its requirements; the result is valid and carries each of the ten given values; with all fields present a failure is integrity()'s error |
| `YggdrasilService.FirstMissing` | core/src/main/java/moe/caa/multilogin/core/yggdrasil/YggdrasilService.java:39-48 | the getOrThrow sequence stops at the first null field: every field before it is present, and it stops nowhere exactly when all are present |
| `YggdrasilService.NewNamesFirstMissing` | core/src/main/java/moe/caa/multilogin/core/yggdrasil/YggdrasilService.java:39-48 | when the i-th field is the first null one, construction fails naming the i-th key |
| `YggdrasilService.Int32` | core/src/main/java/moe/caa/multilogin/core/yggdrasil/YggdrasilService.java:104 | Java int arithmetic: the result is in int range and congruent to the exact value modulo 2^32 |
| `YggdrasilService.StringHash` | core/src/main/java/moe/caa/multilogin/core/yggdrasil/YggdrasilService.java:104 | String.hashCode of the path is a Java int congruent modulo 2^32 to the exact polynomial sum of c_i * 31^(n-1-i) |
| `YggdrasilService.HashCode` | core/src/main/java/moe/caa/multilogin/core/yggdrasil/YggdrasilService.java:102-105 | Objects.hash(path) is a Java int congruent modulo 2^32 to 31 plus the exact polynomial hash of the path |
| `YggdrasilService.Equals` | core/src/main/java/moe/caa/multilogin/core/yggdrasil/YggdrasilService.java:94-100 | descriptors are equal exactly when their paths are equal, and equal descriptors have equal hash codes |
| `YggdrasilService.EqualsIsEquivalence` | core/src/main/java/moe/caa/multilogin/core/yggdrasil/YggdrasilService.java:94-100 | equals is reflexive, symmetric and transitive |
| `YggdrasilService.IpPart` | core/src/main/java/moe/caa/multilogin/core/yggdrasil/YggdrasilService.java:117-120 | the slot-2 text is the ip pattern formatted with the address when passIp is set and the address is non-empty, the empty string otherwise; it fails exactly when a used ip pattern is illegal |
| `YggdrasilService.BuildUrl` | core/src/main/java/moe/caa/multilogin/core/yggdrasil/YggdrasilService.java:115-121 | on a valid descriptor, buildUrl fails exactly when postMode is null, or when in get mode a passed, non-empty address meets an illegal passIpContent pattern; in get mode the url is the url pattern with slot 0 the username, slot 1 the server id and slot 2 the ip part |
| `YggdrasilService.UrlSlotFilled` | core/src/main/java/moe/caa/multilogin/core/yggdrasil/YggdrasilService.java:117-120 | wherever the get-mode url pattern has slot 0, 1 or 2, the url holds the username, the server id or the ip part there, between the texts of the pattern before and after it |
| `YggdrasilService.BuildPostContent` | core/src/main/java/moe/caa/multilogin/core/yggdrasil/YggdrasilService.java:131-137 | buildPostContent returns null exactly in get mode; in post mode its text is the postContent pattern with slot 0 the username, slot 1 the server id and slot 2 the ip part built from passIpContentByPost |
| `YggdrasilService.PostModeUrlVerbatim` | core/src/main/java/moe/caa/multilogin/core/yggdrasil/YggdrasilService.java:116 | in post mode the url is the configured url, untouched |
| `YggdrasilService.UrlIgnoresIpWhenNotPassed` | core/src/main/java/moe/caa/multilogin/core/yggdrasil/YggdrasilService.java:117-120 | with passIp off, the url is the same for every client address |
| `YggdrasilService.UrlReadsIpOnlyThroughSlot2` | core/src/main/java/moe/caa/multilogin/core/yggdrasil/YggdrasilService.java:117-120 | a url pattern without `{2}` gives the same url for every address as for none |
| `YggdrasilService.PostContentMirrorsUrl` | core/src/main/java/moe/caa/multilogin/core/yggdrasil/YggdrasilService.java:115-137 | in post mode, buildPostContent gives what buildUrl gives for the same descriptor with the post patterns in the get slots, and fails exactly where that fails |
| `VerifyAuthCore.UuidString` | core/src/main/java/moe/caa/multilogin/core/auth/verify/VerifyAuthCore.java:116 | UUID.toString is 36 characters with dashes at 8, 13, 18 and 23, and without the dashes it is the 32 hex digits of the UUID |
| `VerifyAuthCore.UuidStringInjective` | core/src/main/java/moe/caa/multilogin/core/auth/verify/VerifyAuthCore.java:116 | distinct online UUIDs have distinct texts, so a pending whitelist entry by UUID stands for exactly one account |
| `VerifyAuthCore.EffectiveRegex` | core/src/main/java/moe/caa/multilogin/core/auth/verify/VerifyAuthCore.java:63-67 | a name pattern is in force exactly when the backend's or the global one is non-empty, and the backend's wins |
| `VerifyAuthCore.FirstFree` | core/src/main/java/moe/caa/multilogin/core/auth/verify/VerifyAuthCore.java:165-172 | the chosen candidate is redirected to by no stored entry and is the first such candidate; none is chosen exactly when all are taken |
| `VerifyAuthCore.Survivors` | core/src/main/java/moe/caa/multilogin/core/auth/verify/VerifyAuthCore.java:135-139 | a player stays online through the sweep exactly when it was online and does not have the name with another unique id |
| `VerifyAuthCore.SweepNotices` | core/src/main/java/moe/caa/multilogin/core/auth/verify/VerifyAuthCore.java:135-139 | the sweep's kicks are exactly the busy-username notices to the online players with the name and another unique id |
| `VerifyAuthCore.FindPlayer` | core/src/main/java/moe/caa/multilogin/core/auth/verify/VerifyAuthCore.java:140 | the player found holds the unique id, and none is found exactly when no online player holds it |
| `VerifyAuthCore.Reconcile` | core/src/main/java/moe/caa/multilogin/core/auth/verify/VerifyAuthCore.java:132-160 | the session step changes neither store nor cache; it only removes players, kicking every same-name player without the kept id as busy username; it refuses exactly when refuse is set and a player not swept holds the redirect UUID, and otherwise admits; without refuse, such a holder is removed from the players and logged last with the busy-login notice, and when online unique ids are distinct no player with the redirect UUID remains |
| `VerifyAuthCore.SurvivorsDistinct` | core/src/main/java/moe/caa/multilogin/core/auth/verify/VerifyAuthCore.java:135-139 | the sweep keeps distinct unique ids distinct |
| `VerifyAuthCore.SweepStep` | core/src/main/java/moe/caa/multilogin/core/auth/verify/VerifyAuthCore.java:135-139 | one more player in the walk is kept or kicked after the players before it |
| `VerifyAuthCore.PreCheck` | core/src/main/java/moe/caa/multilogin/core/auth/verify/VerifyAuthCore.java:44-85 | the checks pass exactly when any stored entry belongs to the verifying backend, the name matches the pattern in force, and (unless safeId) no other stored entry has the name; a failure is one of those three reasons |
| `VerifyAuthCore.Prepared` | core/src/main/java/moe/caa/multilogin/core/auth/verify/VerifyAuthCore.java:87-108 | the entry is the stored one renamed, or a new unwhitelisted one for the online UUID and backend with the converted redirect UUID, or on convRepeat a free one; it is missing exactly for a new convRepeat entry whose every candidate is taken |
| `VerifyAuthCore.ConsumeWhitelist` | core/src/main/java/moe/caa/multilogin/core/auth/verify/VerifyAuthCore.java:110-123 | the whitelist step only shrinks the cache and changes only the flag, which ends set exactly when it was set or a required whitelist found the name or UUID text pending; the cache changes only when such an entry was consumed |
| `VerifyAuthCore.Verify` | core/src/main/java/moe/caa/multilogin/core/auth/verify/VerifyAuthCore.java:38-163 | the corrected pipeline: a login that ends before the write leaves store and players unchanged; one that reaches it adds at most its own key to the store, under the verified name, and an admission carries the stored entry; the cache never grows |
| `VerifyAuthCore.VerifyAsWritten` | core/src/main/java/moe/caa/multilogin/core/auth/verify/VerifyAuthCore.java:38-163 | the pipeline with the sweep sparing the online UUID, as line 136 writes it; it agrees with the corrected pipeline on every login that ends before the write, reaches the write on exactly the same logins, and leaves the same store and cache, so the store and whitelist properties hold for the code as written |
| `VerifyAuthCore.RepeatUuid` | core/src/main/java/moe/caa/multilogin/core/auth/verify/VerifyAuthCore.java:165-172 | getRepeatUuid returns the first free candidate among the derived UUID and the random draws; a free derived UUID is kept; failure only when the derived UUID was taken |
| `VerifyAuthCore.Core.RemoveCacheWhitelist` | core/src/main/java/moe/caa/multilogin/core/auth/verify/VerifyAuthCore.java:113-118 | removes the entry from the pending cache and reports whether it was pending |
| `VerifyAuthCore.Core.WriteNewUserEntry` | core/src/main/java/moe/caa/multilogin/core/auth/verify/VerifyAuthCore.java:126-127 | inserts an entry at its online UUID, keeping the store keyed by online UUID |
| `VerifyAuthCore.Core.UpdateUserEntry` | core/src/main/java/moe/caa/multilogin/core/auth/verify/VerifyAuthCore.java:128-129 | replaces the entry stored at its online UUID, keeping the store keyed by online UUID |
| `VerifyAuthCore.Core.KickBusyName` | core/src/main/java/moe/caa/multilogin/core/auth/verify/VerifyAuthCore.java:134-139 | the loop over online players leaves exactly the sweep's survivors online and logs exactly its kicks, in order (the kicks are logged together after the walk) |
| `VerifyAuthCore.Core.KickPlayer` | core/src/main/java/moe/caa/multilogin/core/auth/verify/VerifyAuthCore.java:153-158 | removes one online player and logs its kick with the notice |
| `VerifyAuthCore.Core.CheckLogin` | core/src/main/java/moe/caa/multilogin/core/auth/verify/VerifyAuthCore.java:44-85 | the backend, name-pattern and duplicate-name checks, including the loop over same-name entries, give the first failing reason of the declarative checks |
| `VerifyAuthCore.Core.PrepareUser` | core/src/main/java/moe/caa/multilogin/core/auth/verify/VerifyAuthCore.java:87-108 | the entry is the stored or a new one, renamed, with a collision-free redirect UUID for a new convRepeat entry |
| `VerifyAuthCore.Core.CheckWhitelist` | core/src/main/java/moe/caa/multilogin/core/auth/verify/VerifyAuthCore.java:110-123 | the cache and the whitelist flag end as the whitelist step prescribes; nothing else changes |
| `VerifyAuthCore.Core.ReconcileSessions` | core/src/main/java/moe/caa/multilogin/core/auth/verify/VerifyAuthCore.java:132-160 | the sweep and the repeated-login policy end in the state and result the session step prescribes |
| `VerifyAuthCore.Core.VerifyAuth` | core/src/main/java/moe/caa/multilogin/core/auth/verify/VerifyAuthCore.java:38-163 | runs the steps of verifyAuth in order, with the same-name sweep corrected to spare the redirect UUID; keeps the store keyed by online UUID and ends in exactly the state and result of Verify |
| `VerifyAuthProperties.PathMismatchChangesNothing` | core/src/main/java/moe/caa/multilogin/core/auth/verify/VerifyAuthCore.java:44-59 | an entry stored for another backend kicks the login, naming that backend's display name or else its path, and changes nothing |
| `VerifyAuthProperties.NamePatternEnforced` | core/src/main/java/moe/caa/multilogin/core/auth/verify/VerifyAuthCore.java:62-74 | past the backend check, a name-pattern kick happens exactly when a pattern is in force and the name does not match it, and then nothing changes |
| `VerifyAuthProperties.RepeatedNameKicked` | core/src/main/java/moe/caa/multilogin/core/auth/verify/VerifyAuthCore.java:76-85 | without safeId, once the earlier checks pass, a duplicate-name kick happens exactly when another stored entry has the name, and changes nothing |
| `VerifyAuthProperties.SafeIdSkipsOnlyRepeatedName` | core/src/main/java/moe/caa/multilogin/core/auth/verify/VerifyAuthCore.java:77 | a safeId backend never gets a duplicate-name kick, and otherwise gets the same outcome as without safeId |
| `VerifyAuthProperties.EarlyExitsChangeNothing` | core/src/main/java/moe/caa/multilogin/core/auth/verify/VerifyAuthCore.java:56-123 | every login that ends before the write leaves store, cache and players unchanged |
| `VerifyAuthProperties.OneWrite` | core/src/main/java/moe/caa/multilogin/core/auth/verify/VerifyAuthCore.java:125-130 | a login that reaches the write changes exactly the entry at its online UUID, and the store stays keyed by online UUID |
| `VerifyAuthProperties.StoredEntry` | core/src/main/java/moe/caa/multilogin/core/auth/verify/VerifyAuthCore.java:88-108 | the written entry has the online UUID, the verified name and the backend path; an existing entry keeps its redirect UUID; a new one gets the converted UUID, or under convRepeat a free one that is the converted UUID when that is free; a new entry is whitelisted only by the whitelist step |
| `VerifyAuthProperties.WhitelistConsumed` | core/src/main/java/moe/caa/multilogin/core/auth/verify/VerifyAuthCore.java:110-123 | a required whitelist removes the name and the UUID text from the cache; the login is kicked exactly when neither was pending, and is otherwise written as whitelisted |
| `VerifyAuthProperties.WhitelistCacheUntouched` | core/src/main/java/moe/caa/multilogin/core/auth/verify/VerifyAuthCore.java:111-112 | without a required whitelist, or for an already whitelisted entry, the cache is untouched and no whitelist kick happens |
| `VerifyAuthProperties.StoreInvariants` | core/src/main/java/moe/caa/multilogin/core/auth/verify/VerifyAuthCore.java:88-130 | no entry is deleted; an entry's backend and redirect UUID never change; a whitelisted entry stays whitelisted |
| `VerifyAuthProperties.ConvRepeatKeepsRedirectsDistinct` | core/src/main/java/moe/caa/multilogin/core/auth/verify/VerifyAuthCore.java:105-108 | on a convRepeat backend, distinct stored entries keep distinct redirect UUIDs |
| `VerifyAuthProperties.NameSweep` | core/src/main/java/moe/caa/multilogin/core/auth/verify/VerifyAuthCore.java:132-140 | every online player with the name and another unique id than the entry's redirect UUID is kicked as busy username; every other player, except one holding the redirect UUID, stays online |
| `VerifyAuthProperties.NameSweepAsWritten` | core/src/main/java/moe/caa/multilogin/core/auth/verify/VerifyAuthCore.java:134-139 | as written, every online player with the verified name whose unique id is not the online UUID is kicked as busy username |
| `VerifyAuthProperties.RepeatLoginRefused` | core/src/main/java/moe/caa/multilogin/core/auth/verify/VerifyAuthCore.java:148-151 | with refuseRepeatedLogin, a player holding the redirect UUID makes the login refused and stays online |
| `VerifyAuthProperties.RepeatLoginReplaces` | core/src/main/java/moe/caa/multilogin/core/auth/verify/VerifyAuthCore.java:152-162 | without refuseRepeatedLogin, the player holding the redirect UUID is kicked with the busy-login notice and the login is admitted; when online unique ids are distinct, that player is no longer online |
| `VerifyAuthProperties.RepeatLoginBypassedAsWritten` | core/src/main/java/moe/caa/multilogin/core/auth/verify/VerifyAuthCore.java:136 | as written, a second login of an account whose redirect UUID differs from its online UUID kicks the first session as busy username and is admitted despite refuseRepeatedLogin; the corrected pipeline refuses it and keeps the session |

## Findings

| source | as written | input that shows it | evidently intended | confidence | as-written member | corrected member |
|---|---|---|---|---|---|---|
| core/src/main/java/moe/caa/multilogin/core/auth/verify/VerifyAuthCore.java:136 | the same-name sweep spares only players whose unique id equals the ONLINE UUID, though players on the server carry the entry's redirect UUID (line 140 looks them up by it) | entry online 1 / redirect 2 named "Steve" on backend "alpha" with refuseRepeatedLogin and a name-derived conversion; player "Steve" with unique id 2 online; "Steve" logs in again with online UUID 1: the first session is kicked as busy username and the login admitted | the sweep spares the redirect UUID, so the existing session is found and the repeated login refused | medium, not executed | `VerifyAuthProperties.RepeatLoginBypassedAsWritten` | `VerifyAuthProperties.RepeatLoginRefused` |

## Left out

- The scheduler and threading: the FutureTasks run on the main thread and waited on with `get()` are flattened into sequential steps. `InterruptedException` and `ExecutionException` are not modelled.
- SQL storage is a `map` keyed by online UUID and a `set` of pending whitelist entries. `SQLException` is not modelled.
- `fromYamlConfig` and YAML reading are left out. The constructor takes already-read nullable values.
- Logging and the language-file texts are left out. A kick carries a `Reason` or a `Notice`, not its message text.
- `Pattern.matches` and the conversion policies' `getResultUuid` are parameters (`Env.matches`, `Env.resultUuid`). YggdrasilServiceBody, ConvUuidEnum and ValueUtil are not part of this model. Their behaviour is taken from how the core files call them: the ServerType members besides CUSTOM and BLESSING_SKIN are folded into `Official`.
- `UUID.randomUUID()` is a supplied sequence of draws.
- VerifyAuthCore.RepeatUuid: the source recurses until a draw is free. The model stops when the supplied draws run out and reports `Exhausted`.
- Argument numbers are bounded by Integer.MAX_VALUE, as MessageFormat parses them with Integer.parseInt in the JDK releases of the project's era. Later JDK releases that bound argument numbers more tightly are not modelled.
- MessageFormat format types (`{0,number}`), signed argument numbers (`{+1}`), a second `{` inside an argument and non-ASCII digits are not modelled. The model's parser rejects these patterns; Java accepts some of them.
- YggdrasilService.HashCode: hashes Dafny characters. Java's String.hashCode runs over UTF-16 code units, so the two differ for characters outside the Basic Multilingual Plane.
- Online players are found by exact name. The platform's own `getPlayer(name)` matching rules are not part of this model. A kick removes the player at once, where the server may disconnect it later.
- The User class is not part of this model. Entries are compared as values wherever the source calls `User.equals`.
- The getters of YggdrasilService carry no logic and are plain datatype fields. CommandHandler and LibrariesHandler are context, not core, and are not modelled.
- YggdrasilService.BuildUrl and YggdrasilService.BuildPostContent take the username and server id as non-null strings. MessageFormat writes "null" for a null argument; that case is not modelled.
