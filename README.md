# limitart core, modelled in Dafny

This project models five sequential components of the limitart game-server
library and proves properties of them:

- **RouterImpl** (`Mapping.dfy`). The request router holds three tables:
  message class → binding, mapper class → owner instance, and mapper class →
  method table. `registerMapperClass` walks the methods of an annotated mapper
  class. It validates each one in the source's order and binds it. `request`
  looks up a message's exact runtime class and hands back a deferred invoker.
  Reflection is abstract: `Env.reflect` describes a class and
  `Env.isAssignableFrom` is the subtype relation. The pure function
  `Register` specifies registration. The class `RouterImpl` keeps the three
  tables as fields and updates them step by step, as the Java loop does.
- **InnerGameServer** (`InnerServer.dfy`). The game node keeps `toFights`, a
  table of links to fight servers filled by the join callback. Links are
  opaque handles together with the builder settings they were made from.
- **EncryptionUtil** (`Encryption.dfy`). This is the token framing around
  AES/CBC/NoPadding (FIPS 197, CBC as in section 6.2 of NIST SP 800-38A) and
  Base64 (section 4 of RFC 4648). It covers key and IV derivation, zero
  padding to 16-byte blocks, the `IV ‖ ciphertext` layout, the character
  substitution, and the `$NN` pad-count prefix. The cipher, the Base64 codec
  and UTF-8 conversion are function values. The round trip is proved for any
  of them that are `Sound`, for plaintexts of at most 2^31 - 32 bytes
  (`MAX_PLAINTEXT`). `Sound` asks three things:
  - decryption undoes encryption under the same 16-byte key and IV;
  - encryption keeps the length of whole 16-byte blocks;
  - Base64 decoding undoes encoding, and the encoded text stays in the
    standard alphabet of section 4 of RFC 4648. A URL-safe codec, though an
    inverse pair, does not round-trip (`RestoreOutsideAlphabet`).
- **ConcurrentHashSet** (`Collections.dfy`). This is a set kept as the key set
  of a backing map.
- **ThreadLocalHolder** (`Concurrent.dfy`). This is a lazily initialised cell,
  seen from one thread.

`Wrappers.dfy` holds `Option` and `Result`. `MapKeys.dfy` enumerates a
map's keys once each. That stands for `keySet().forEach`, `values()` and
`iterator()`.

### Behaviour of the code worth knowing

- **Quit.** A quit notification does not remove the peer's entry from
  `toFights`: the removal code in InnerGameServer.java is commented out, so
  `OnNewSlaveQuit` changes nothing and a link outlives the peer's departure.
- **Fight-server address.** The link to a joined fight server is built with
  the server's outward IP (`outIp`), its `outPort` and `outPass` as the
  master server port and pass, and its `innerPort` with the inner pass as the
  master inner port. Which of the two ports is dialled is decided inside
  `InnerSlaveServer`, which is not part of this model.
- **Atomicity.** A join is a `containsKey` followed by a `put`, so it is not an
  atomic check-and-insert. Registration is not all-or-nothing either:
  - A method that throws leaves the bindings of earlier methods in place
    (`RegistrationIsNotAtomic`).
  - A failing instance factory leaves a binding whose mapper class has no
    instance and no method table (`InstanceFailureLeavesBinding`). A request
    for that message class then builds an invoker holding nulls.

## Model

| member | source | states |
|---|---|---|
| Mapping.Step | src/top/limitart/mapping/RouterImpl.java:131-174 | One iteration keeps every existing binding, instance and method table. A new key is the method's message type, bound to `(type, class, i)`. Only `cls` can gain an instance or a method table. A new instance is what the factory made, and it appears only together with a new binding. |
| Mapping.StepChecksInOrder | src/top/limitart/mapping/RouterImpl.java:132-158 | Each exception is characterised in both directions by the checks that precede it, in order: non-public, then parameter count, then a silent skip for a message type outside mClass, then context type, then duplicate. A skipped method changes nothing. An accepted new type is bound. A duplicate is refused before any put: every check that throws leaves all three tables unchanged. |
| Mapping.RegisterFrom | src/top/limitart/mapping/RouterImpl.java:130-175 | The loop from method `i` on keeps everything that was in the tables. Every binding it adds points at `cls` with an index of at least `i`. It adds an instance only for `cls`, made by the factory. |
| Mapping.Register | src/top/limitart/mapping/RouterImpl.java:122-177 | Registration never removes or alters an existing entry. The instance and method tables of an already registered class stay as they were. |
| Mapping.InstanceSource | src/top/limitart/mapping/RouterImpl.java:164-169 | The owner instance comes from `confirmInstance` when one is given, else from `newInstance`. |
| Mapping.StepPreservesWellFormed | src/top/limitart/mapping/RouterImpl.java:159-173 | One iteration keeps the invariant. Every binding points at an accepted method annotated with its key. Method tables are what reflection lists. Instances and method tables have the same keys. |
| Mapping.RegisterPreservesWellFormed | src/top/limitart/mapping/RouterImpl.java:122-177 | Registration keeps the tables well formed, whether it returns or throws. |
| Mapping.RegisterFromPreservesWellFormed | src/top/limitart/mapping/RouterImpl.java:130-175 | The loop from any index keeps the tables well formed. |
| Mapping.UnannotatedChangesNothing | src/top/limitart/mapping/RouterImpl.java:124-127 | A class without @MapperClass leaves all three tables unchanged and throws nothing. |
| Mapping.RegisterFromBindsEveryHandler | src/top/limitart/mapping/RouterImpl.java:130-175 | If the loop from `i` throws nothing, every accepted method `j >= i` is bound under its message type to `(type, cls, j)`. The class then has an instance and a method table. |
| Mapping.RegisterBindsEveryHandler | src/top/limitart/mapping/RouterImpl.java:122-177 | A registration that throws nothing binds every accepted method of the class to itself. |
| Mapping.RegistrationIsNotAtomic | src/top/limitart/mapping/RouterImpl.java:130-163 | Method 0 binds and method 1 is annotated but not public. The call throws IllegalAccessError for method 1, and the binding of method 0 stays. |
| Mapping.InstanceFailureLeavesBinding | src/top/limitart/mapping/RouterImpl.java:163-170 | When the owner instance cannot be made, the call fails after the binding was put. The message class stays bound to a class that has neither an instance nor a method table. |
| Mapping.Route | src/top/limitart/mapping/RouterImpl.java:217-228 | A request is dropped exactly when its runtime class is unbound. Otherwise the invoker carries the binding's method index and the context. |
| Mapping.Invoke | src/top/limitart/mapping/RouterImpl.java:251-254 | Invocation succeeds exactly when the method table and the instance are present and the index is in range. It calls the method at that index of the table, on that instance, with that context. |
| Mapping.DispatchCallsBoundHandler | src/top/limitart/mapping/RouterImpl.java:217-254 | In well-formed tables, dispatching a bound class whose mapper has an instance calls that instance, with that context. The method called is the accepted one annotated with that very class. |
| Mapping.RegisterThenRequest | demo/top/limitart/mapping/RouterDemo.java:10-14 | After a registration that throws nothing, requesting a message named by accepted method `j` calls method `j`. It runs on the instance registration made, with the context built for the request. |
| Mapping.RouterImpl.constructor | src/top/limitart/mapping/RouterImpl.java:56-58 | `Router.empty` starts with three empty tables, which are well formed. |
| Mapping.RouterImpl.RegisterMapperClass | src/top/limitart/mapping/RouterImpl.java:122-177 | The loop over the method list leaves exactly the tables `Register` specifies and returns the same exception. The tables stay well formed. |
| Mapping.RouterImpl.Bind | src/top/limitart/mapping/RouterImpl.java:159-173 | The put-binding / make-instance-once / store-method-table tail of an iteration leaves exactly the tables of `Step`. |
| Mapping.RouterImpl.ReplaceInstance | src/top/limitart/mapping/RouterImpl.java:186-193 | Null arguments are rejected in argument order. An existing instance is overwritten. A class without one is not added. `msgs` and the method tables never change. |
| Mapping.RouterImpl.ForeachRequestClass | src/top/limitart/mapping/RouterImpl.java:196-198 | The consumer sees every bound message class exactly once. |
| Mapping.RouterImpl.RequestInstance | src/top/limitart/mapping/RouterImpl.java:207-213 | The result is null exactly for an unbound class. Otherwise it is a new message of that class. |
| Mapping.RouterImpl.Request | src/top/limitart/mapping/RouterImpl.java:217-229 | A null request is rejected. An unbound runtime class is dropped without building a context. Otherwise the invoker holds the binding's index, the class's current instance and method table, and the one context built. |
| Mapping.RouterDemo | demo/top/limitart/mapping/RouterDemo.java:9-15 | Registering StringMapperClass and requesting a StringRequest runs its handler on the instance `newInstance` made, with the request's context. |
| InnerServer.PublicLinkConfig | src/main/java/org/slingerxv/limitart/game/innerserver/InnerGameServer.java:29-34 | The public link is a game-type link named Game-To-Public. It targets the public server's IP and inner port with the inner pass, has no master server port or pass, and writes no channel tag. |
| InnerServer.FightLinkConfig | src/main/java/org/slingerxv/limitart/game/innerserver/InnerGameServer.java:51-64 | The link to a joined fight server targets its `outIp`, `outPort`, `outPass` and `innerPort`. On connect it tags the channel with FIGHT and the server's id. |
| InnerServer.InnerGameServer.constructor | src/main/java/org/slingerxv/limitart/game/innerserver/InnerGameServer.java:28-33 | A new game node has its public link and an empty `toFights`. |
| InnerServer.InnerGameServer.StartServer | src/main/java/org/slingerxv/limitart/game/innerserver/InnerGameServer.java:82-84 | Starts the public link only. `toFights` is unchanged. |
| InnerServer.InnerGameServer.StopServer | src/main/java/org/slingerxv/limitart/game/innerserver/InnerGameServer.java:87-89 | Stops the public link only. The fight links and `toFights` are unchanged. |
| InnerServer.InnerGameServer.OnNewSlaveQuit | src/main/java/org/slingerxv/limitart/game/innerserver/InnerGameServer.java:36-42 | A quit notification changes nothing. |
| InnerServer.InnerGameServer.OnNewSlaveJoin | src/main/java/org/slingerxv/limitart/game/innerserver/InnerGameServer.java:43-70 | A non-fight join and a join for an id already present change nothing. A failed build changes nothing. Otherwise exactly one entry is added, under `info.serverId`. It is kept even when starting fails. Every entry stays a fight link tagged with its key. |
| InnerServer.InnerGameServer.GetPublicClient | src/main/java/org/slingerxv/limitart/game/innerserver/InnerGameServer.java:91-93 | Returns the public link itself, whose settings are `PublicLinkConfig`. |
| InnerServer.InnerGameServer.GetFightClient | src/main/java/org/slingerxv/limitart/game/innerserver/InnerGameServer.java:95-97 | Returns the entry for the id, or null exactly when there is none. An entry is a fight link for that id. |
| InnerServer.InnerGameServer.GetFightClients | src/main/java/org/slingerxv/limitart/game/innerserver/InnerGameServer.java:99-101 | Returns one element per entry, with no element twice, and these are exactly the table's values: a permutation of them, since each link is tagged with its own server id. |
| InnerServer.JoinTwiceDialsOnce | src/main/java/org/slingerxv/limitart/game/innerserver/InnerGameServer.java:45-65 | A join delivered twice returns early the second time. The table gains just that one id. |
| Encryption.FitBlock | src/top/limitart/util/EncryptionUtil.java:78-86 | A key or IV is 16 bytes: the first min(16, n) bytes of the input, then zeros. |
| Encryption.PaddedLength | src/top/limitart/util/EncryptionUtil.java:114-117 | The padded length is the least multiple of 16 not below the length. |
| Encryption.ZeroFlag | src/top/limitart/util/EncryptionUtil.java:117 | The pad count is below 16, is 0 exactly for whole blocks, and brings the length to a multiple of 16. |
| Encryption.ZeroFill | src/top/limitart/util/EncryptionUtil.java:113-122 | The padded buffer has the padded length. The plaintext is its prefix, and the rest is zero. |
| Encryption.Replace | src/top/limitart/util/EncryptionUtil.java:131 | `String.replace` changes exactly the occurrences of one character. |
| Encryption.Substitute | src/top/limitart/util/EncryptionUtil.java:131 | Position by position, `+` becomes `-`, `/` becomes `_`, `=` becomes `.`, and every other character stays. No `+`, `/` or `=` is left. |
| Encryption.Restore | src/top/limitart/util/EncryptionUtil.java:163 | Position by position, `-` becomes `+`, `_` becomes `/`, `.` becomes `=`, and every other character stays. No `-`, `_` or `.` is left. |
| Encryption.RestoreUndoesSubstitute | src/top/limitart/util/EncryptionUtil.java:163 | Over the Base64 alphabet, decode's substitution undoes encode's. |
| Encryption.RestoreOutsideAlphabet | src/top/limitart/util/EncryptionUtil.java:163 | Outside that alphabet it does not: `-` comes back as `+`. |
| Encryption.SubstitutedHasNoPrefix | src/top/limitart/util/EncryptionUtil.java:159 | Substituted Base64 never starts with `$`, so decode cannot mistake it for a prefix. |
| Encryption.TwoDigits | src/top/limitart/util/EncryptionUtil.java:133 | `%02d` of a number below 100 is two decimal digits that read back as that number. |
| Encryption.ParseTwoChars | src/top/limitart/util/EncryptionUtil.java:160 | `Integer.parseInt` of two characters succeeds exactly on two digits or a sign and a digit, and otherwise throws NumberFormatException. Two digits read as their decimal value, `+d` as d and `-d` as -d. |
| Encryption.ZeroFlagPrefix | src/top/limitart/util/EncryptionUtil.java:132-134 | There is no prefix for a pad count of 0. Otherwise the prefix is `$` and two characters that parse back to the count. |
| Encryption.ParsePrefix | src/top/limitart/util/EncryptionUtil.java:159-162 | A token not starting with `$` is taken whole with flag 0. A `$` token shorter than 3 throws IndexOutOfBounds. Otherwise the flag is the parse of characters 1-2 (or NumberFormat), and the first three characters are dropped, also for `$00`. |
| Encryption.ParsePrefixReadsZeroFlag | src/top/limitart/util/EncryptionUtil.java:132-162 | Decode reads back the pad count encode wrote and the rest of the token. |
| Encryption.EncodeToken | src/top/limitart/util/EncryptionUtil.java:110-136 | encode throws only a negative array size or the missing-IV error. A token needs an IV and a length that pads within Java's bound. It starts with the pad-count prefix, followed by text as long as the Base64 of `IV ‖ ciphertext`. |
| Encryption.DecodeToken | src/top/limitart/util/EncryptionUtil.java:156-180 | A prefix error is decode's error. A decoded plaintext means the Base64 text decoded to at least 16 bytes and the ciphertext after them decrypted. The plaintext is then a prefix of the decryption, shorter by exactly the positive flag. |
| Encryption.PaddedWithinLimit | src/top/limitart/util/EncryptionUtil.java:114-116 | Padding stays within 2^31 - 32 exactly when the length does. |
| Encryption.EncodeLengthLimit | src/top/limitart/util/EncryptionUtil.java:114-126 | With an IV, encode's own array arithmetic fails exactly past 2^31 - 32 bytes of plaintext: past that, Java's `int` wraps at line 116 or line 126 and a negative array size is thrown. |
| Encryption.EncodeNeedsIv | src/top/limitart/util/EncryptionUtil.java:99-101 | An instance without an IV cannot encode. |
| Encryption.RoundTrip | src/top/limitart/util/EncryptionUtil.java:110-180 | With `Sound` primitives and a plaintext of at most 2^31 - 32 bytes, decoding under the same key gives back the exact plaintext, trailing zero bytes included. |
| Encryption.DecodeFramed | src/top/limitart/util/EncryptionUtil.java:156-180 | A prefixed, substituted Base64 of `IV ‖ ciphertext` decodes to the decryption under that IV, less its last `zeroFlag` bytes. |
| Encryption.ArrayCopy | src/top/limitart/util/EncryptionUtil.java:80 | `System.arraycopy` overwrites exactly the destination range with the source range. |
| Encryption.DeriveBlock | src/top/limitart/util/EncryptionUtil.java:79-80 | Copying into a new 16-byte array gives `FitBlock`. |
| Encryption.EncryptionUtil.EncodeInstance | src/top/limitart/util/EncryptionUtil.java:77-88 | The key is `FitBlock` of the password's UTF-8 bytes. The IV is the same for `ivStr`, or absent when `ivStr` is null. |
| Encryption.EncryptionUtil.DecodeInstance | src/top/limitart/util/EncryptionUtil.java:99-101 | A decode instance has the password's key and no IV. |
| Encryption.EncryptionUtil.Encode | src/top/limitart/util/EncryptionUtil.java:110-136 | Array assembly with `System.arraycopy` gives the token `EncodeToken` describes, or its exception. |
| Encryption.EncryptionUtil.EncodeString | src/top/limitart/util/EncryptionUtil.java:145-147 | Encodes the string's UTF-8 bytes. |
| Encryption.EncryptionUtil.Decode | src/top/limitart/util/EncryptionUtil.java:156-180 | Splitting and unpadding with `System.arraycopy` gives the UTF-8 reading of what `DecodeToken` describes, or its exception. |
| Encryption.EncodeThenDecode | src/top/limitart/util/EncryptionUtil.java:53-69 | An encode instance and a decode instance with one password agree: decode gives back the plaintext. |
| Collections.Previous | src/main/java/org/slingerxv/limitart/collections/ConcurrentHashSet.java:66-74 | `put` and `remove` find a previous value exactly when the key was present. |
| Collections.ConcurrentHashSet.constructor | src/main/java/org/slingerxv/limitart/collections/ConcurrentHashSet.java:38-40 | A new set is empty. |
| Collections.ConcurrentHashSet.WithCapacity | src/main/java/org/slingerxv/limitart/collections/ConcurrentHashSet.java:42-44 | A new set with a capacity hint is empty. |
| Collections.ConcurrentHashSet.Iterator | src/main/java/org/slingerxv/limitart/collections/ConcurrentHashSet.java:46-49 | Iteration yields every element exactly once. |
| Collections.ConcurrentHashSet.Size | src/main/java/org/slingerxv/limitart/collections/ConcurrentHashSet.java:51-54 | The size is the number of elements, capped at Integer.MAX_VALUE. |
| Collections.ConcurrentHashSet.IsEmpty | src/main/java/org/slingerxv/limitart/collections/ConcurrentHashSet.java:56-59 | The set is empty exactly when it has no elements. |
| Collections.ConcurrentHashSet.Contains | src/main/java/org/slingerxv/limitart/collections/ConcurrentHashSet.java:61-64 | Contains reports exactly the current membership. |
| Collections.ConcurrentHashSet.Add | src/main/java/org/slingerxv/limitart/collections/ConcurrentHashSet.java:66-69 | Add returns true exactly when the element was absent. Afterwards the set is the old one plus the element. |
| Collections.ConcurrentHashSet.Remove | src/main/java/org/slingerxv/limitart/collections/ConcurrentHashSet.java:71-74 | Remove returns true exactly when the element was present. Afterwards the set is the old one less the element. |
| Collections.ConcurrentHashSet.Clear | src/main/java/org/slingerxv/limitart/collections/ConcurrentHashSet.java:76-79 | Clear leaves the set empty. |
| Collections.AddAddRemove | src/main/java/org/slingerxv/limitart/collections/ConcurrentHashSet.java:66-74 | A second add of the same element returns false. Removing a newly added element restores the set. |
| Concurrent.ThreadLocalHolder.Create | src/top/limitart/concurrent/ThreadLocalHolder.java:30-37 | A new holder is empty. |
| Concurrent.ThreadLocalHolder.Get | src/top/limitart/concurrent/ThreadLocalHolder.java:39-42 | Get returns what the cell holds, or null. |
| Concurrent.ThreadLocalHolder.Set | src/top/limitart/concurrent/ThreadLocalHolder.java:54-61 | Set holds the value, or empties the cell for null, and returns the same holder. |
| Concurrent.ThreadLocalHolder.GetWithInitialize | src/top/limitart/concurrent/ThreadLocalHolder.java:44-52 | A held value is returned and nothing changes. An empty cell stores and returns `init`'s value. A null from `init` is rejected and the cell stays empty. A success always leaves the result in the cell. |
| Concurrent.InitializeTwice | src/top/limitart/concurrent/ThreadLocalHolder.java:44-52 | A second `getWithInitialize` returns what the first stored, whatever its own `init` gives. |
| Concurrent.SetThenClear | src/top/limitart/concurrent/ThreadLocalHolder.java:54-61 | Chained sets act on one holder. Setting null after a value empties the cell. |

## Left out

- Reflection: `MethodAccess.get`, annotations, `Class.getName` in messages, and package scanning in `RouterImpl.create`. A class is described by `Env.reflect`, and assignability is an abstract relation.
- `ConstructorAccess.get(messageType)` failing: it runs before the duplicate check. The model takes it to succeed, and `RequestInstance` returns a message of the class.
- `MethodAccess.invoke` itself is a foreign call. `Invoke` returns the call it would make.
- Mapping.RouterImpl.Request: `proc` is not modelled as a callback. The result is the invoker `proc` would receive. That `contextInstance` and `proc` run once is not counted, because function values here have no effects.
- Null `mapperClass` or `requestClass` arguments where the Java code does not check them. Null message classes are not modelled.
- Logging through SLF4J and log4j, including the logged exception on a failed join.
- Concurrency of `ConcurrentHashMap` and `ThreadLocal`. Everything is sequential. No check-then-put is claimed to be atomic.
- `InnerSlaveServer`, its builder and its network lifecycle. Building and starting are parameters (`Builder`, `start`). `InnerServerUtil.getInnerPass` is a constructor argument.
- The InnerGameServer constructor's own builder failure, and the abstract `getGameServerLoad` and `onConnectPublic`.
- AES/CBC, `CodecUtil` Base64 and UTF-8 conversion are function values in `Primitives`. `Cipher.getInstance` and key validation failures are the decryptor returning None on the decode side. On the encode side they are not modelled.
- Encryption.EncodeLengthLimit: the Base64 encoder's own bound on its output is not modelled. Its `byte[]` result cannot exceed Integer.MAX_VALUE bytes, so in Java content longer than 1,610,612,733 bytes (plaintexts from 1,610,612,705 bytes on) also fails; `toBase64` here is total, and `EncodeToken` succeeds there.
- Encryption.TwoDigits: `String.format("%02d")` formats with the default locale's digits; the model always writes ASCII digits.
- Encryption.ParsePrefix: Java's `startsWith` and `substring(1, 3)` / `substring(3)` index UTF-16 code units, while a Dafny string indexes Unicode scalar values. A token like `$` followed by one character outside the Basic Multilingual Plane throws NumberFormat in Java but IndexOutOfBounds here.
- Encryption.ParseTwoChars: only ASCII digits are read as digits. `Integer.parseInt` also accepts other Unicode decimal digits.
- Encryption.EncryptionUtil.Encode: a null `bytes` or `password` is not modelled, and plaintexts are limited to Java's array bound.
- Collections.ConcurrentHashSet.WithCapacity: a negative capacity, which makes ConcurrentHashMap throw, is excluded by the `nat` type.
- Null elements of `ConcurrentHashSet`, on which ConcurrentHashMap throws, are not modelled.
- `top.limitart.base.Conditions` is not part of this model. `notNull` is taken to throw on null and to return its argument otherwise.
- Concurrent.ThreadLocalHolder.GetWithInitialize: the ensures does not say `init` is not called on a held value, because a function value's calls are not observable. It says the result and the cell do not depend on `init`.
- ResServerJoinMaster2SlaveMessage, Funcs, Triple and ScriptKeyDuplicatedException hold no logic of these components.
