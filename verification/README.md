# A verified model of RtpDdsGateway

RtpDdsGateway carries requests and samples between a UDP/CBOR protocol and RTI Connext DDS. This
project models the gateway's own logic in Dafny and proves what it promises: the JSON binding that is
generated from IDL, the text engine for QoS XML and the store on top of it, the registry of DDS
entities, the event dispatcher, the request queue, the frame codec, the log files, and the agreement
of the two code generators. `dafny verify dfyconfig.toml` checks all of it.

Code that updates state in place is modelled by methods (loops over text, classes with the original's
fields) and tied to functions of the old state; the laws are lemmas about those functions, over every
input and every run. Protocols with several threads are state machines whose steps are the original's
lock regions, and what it does without a lock.

| files | what they model |
|---|---|
| `JsonTypes`, `JsonBind`, `JsonSample`, `JsonRoundTrip`, `JsonBounds`, `JsonDecodes`, `JsonEncodes` | the type table of the binding generator, the encoder and decoder it emits, what each JSON decodes to and each sample encodes as, their round trip, the decoder's bounds, overlays |
| `Text`, `QosXml`, `QosScan`, `QosDoc`, `QosReading`, `QosNaming`, `QosMerge`, `QosLaws`, `QosTags`, `QosCompress`, `QosKept`, `QosLastWrite` | the scanners over QoS XML, the documents behind the text, and the laws of listing, extracting, merging and compressing |
| `QosChain`, `QosSorting`, `QosStore`, `QosStoreLaws`, `QosLookup`, `QosStoreRuns`, `QosStoreCases` | what a provider gives along base_name, and the cache over dynamic and file providers |
| `Registry`, `RegistryLaws`, `RegistryOwners`, `DdsManager` | the nested maps of participants, publishers, subscribers, topics, writers and readers |
| `Dispatcher`, `DispatcherServing` | the WaitSet dispatcher's two threads beside the manager's calls |
| `AsyncProcessor`, `AsyncHistory`, `IpcDispatch`, `IpcLaws`, `IpcRefusals`, `IpcProcess`, `IpcRequests` | the bounded event queue, what a request means and which are refused, and its way to exactly one reply |
| `Bytes`, `FrameCodec` | byte order, the frame codec and its Python peer |
| `LogRotation` | log files, rotation and the writer's queue |
| `TypeNames`, `TypePaths` | which topic types each generator registers |

How the outside world enters:

- A failing call into DDS is a boolean of the call (`Faults`, `accepted`, `detached`, `Result`); files on
  disk, the current time and the order of an unordered container are parameters.
- A QoS provider is the XML text it was made from: what it gives for `lib::profile` is that profile's
  block followed by the blocks it inherits from, along `base_name`, up to one that is missing or has been
  met; it has none when there is no such block. A base written without a library is one of the same
  library.
- A well-formed QoS document (`QosDoc`) is libraries of profiles with arbitrary text around and inside
  them, as long as that text contains none of the four markers the scanners look for and every `<` in it
  is followed by a `>`. Names put between quotes hold no quotes or angle brackets, and a tag's first
  `name=` is directly followed by its quoted value. What the scanners find on any text at all, `QosScan`
  tells by the tags and closing markers that stand in it; their loops end on every text.
- The scanner that extracts tests a tag by substring, the one that merges reads its `name`. The two
  disagree when another attribute carries the name, as `base_name` does. `TagClear` says they agree,
  `QosTags.PrintedClear` that a printed tag is clear for every name but its base's, and
  `QosLaws.MergeGetPut` gives the exact condition under which a merged profile reads back.

Where the code and its description differ, the code is modelled:

- The generator's header promises that the lengths of bounded strings and sequences are checked. It emits
  the check for members only, not for the elements of a sequence or array, nor for wide strings, and an
  integer is accepted for an enum without being one of its values. `JsonBounds.DecodeWithinBounds`
  states exactly which JSON decodes to a sample within its bounds, and
  `JsonBounds.ElementBoundsUnchecked` is a sample outside them.
- Updating a profile at run time is described as invalidating the cache. It drops the entry of that
  profile alone: a cached profile that inherits from it stays as it was.
  `QosStoreRuns.DynamicWins` says exactly when a lookup is up to date, and `QosStoreCases.StaleBase` is a
  run after which one is not.
- The two generators are meant to know the same topic types. They do exactly under the condition of
  `TypeNames.AgreeExactly`; `TypeNames.NestedDiffers` is a tree on which they differ.
- Publishing to one domain and publisher reports success for a slot that a failed creation left empty
  (`DdsManager.DdsManager.PublishToWriter`, `RegistryLaws.FailedLeavesKey`).
- A creation reports failure by an exception also when only registering the new endpoint for events
  raises, and the endpoint stays (`RegistryLaws.CreateDoes`).
- `write_any` casts an untyped pointer. That this is safe is a property of the registry's maps
  (`DdsManager.PublishTypedOnRuns`), not of the call.
- `stop` of the event queue is meant to end its worker, but clears its flag and notifies without the lock
  under which the worker tests that flag. A worker between its test and its wait can miss the
  notification (`AsyncProcessor.MissedWakeUp`); `AsyncProcessor.LeavesExactly` says exactly when it leaves
  however things interleave.
- A log limit of zero does not bound files as a limit above zero does (`LogRotation.FileSize`).

## Model

| member | source | states |
|---|---|---|
| JsonTypes.ResolveLoop | tools/emit_jsonbind.py:52-68 | following an alias chain ends at a type that is no alias, the one `Resolve` gives, on every chain that does not return to an alias |
| JsonRoundTrip.EnumRoundTrip | tools/emit_jsonbind.py:313-332 | looking up the emitted name of an enumerator gives back its value |
| JsonRoundTrip.MemberRoundTrip | tools/emit_jsonbind.py:340-388 | any member within its declared type is decoded from its own encoding, whatever it is decoded into |
| JsonRoundTrip.StructRoundTrip | tools/emit_jsonbind.py:334-464 | for every type table and every sample within its bounds the emitted decoder succeeds on the emitted encoder's output and gives the sample back |
| JsonEncodes.PlainWritten | tools/emit_jsonbind.py:334-388 | what the JSON library makes of a value by itself: numbers as they are, characters as signed bytes, enumerators as their numbers, containers element by element |
| JsonEncodes.MemberWritten | tools/emit_jsonbind.py:340-388 | a member is encoded as j if and only if it writes as j: character sequences as strings, enumerators by the name of the first of that value, structs and lists by their parts |
| JsonEncodes.StructWritten | tools/emit_jsonbind.py:334-388 | a struct is encoded as the object of exactly those members that the generator emits, each as it writes |
| JsonDecodes.PrimExactly | tools/emit_jsonbind.py:411-412 | a JSON value decodes to a primitive v if and only if it reads as v: an integer as the number of the type congruent to it, a fraction by its integer next toward zero, either as itself at a floating type, a boolean as 1 or 0 where the library allows |
| JsonDecodes.EnumExactly | tools/emit_jsonbind.py:319-332 | a string decodes to the first enumerator of that name and an integer to the 32-bit number congruent to it, listed or not; nothing else decodes |
| JsonDecodes.EnumNumber | tools/emit_jsonbind.py:326-329 | the number of a listed enumerator decodes to that enumerator |
| JsonDecodes.PlainExactly | tools/emit_jsonbind.py:440-457 | elements that the JSON library converts decode to v if and only if they read as v, place by place |
| JsonDecodes.MemberExactly | tools/emit_jsonbind.py:404-460 | a member decodes to v if and only if its JSON reads as v over what the sample held, bounds included |
| JsonDecodes.StructExactly | tools/emit_jsonbind.py:390-463 | a struct decodes to v if and only if every field of v is what its member reads as, or the old one where the mode lets it be absent |
| JsonBounds.DecodeWithinBounds | tools/emit_jsonbind.py:390-463 | a decoded member is within its declared bounds if and only if the JSON satisfies the bounds the decoder leaves unchecked |
| JsonBounds.StructWithinBounds | tools/emit_jsonbind.py:390-463 | the same for whole structs |
| JsonBounds.ElementBoundsUnchecked | tools/emit_jsonbind.py:432-443 | a concrete JSON whose decoded sequence holds a string longer than its bound |
| JsonBounds.DecodesExactlyWhen | tools/emit_jsonbind.py:393-403 | a struct decodes exactly when every member present decodes and every absent one may be absent in the mode at hand |
| JsonBounds.FieldDecoded | tools/emit_jsonbind.py:393-460 | after decoding each field is the decoded member if it was present and the old field if not |
| JsonBounds.Overlay | tools/emit_jsonbind.py:390-463 | along every path of nested structs, decoding changes exactly what is present and leaves the rest at its old value |
| JsonSample.Sample.FromJson | tools/emit_jsonbind.py:390-463 | writing into the sample field by field gives the decoded struct, which is told from the JSON by `JsonDecodes.StructExactly`, or stops with the members before the failing one written and those after it untouched |
| JsonSample.ParseEnumerators | tools/emit_jsonbind.py:71-77 | the loop numbers enumerators without a value one above the one before |
| JsonSample.RisingIncreases | tools/emit_jsonbind.py:71-77 | enumerator values increase from the automatic one on if and only if no given value is below the automatic one |
| JsonSample.RisingRoundTrips | tools/emit_jsonbind.py:313-332 | such an enum is one that decoding its encoding gives back, if and only if its names differ and its last value fits |
| Text.FindSpec | RtpDdsGateway/src/qos_xml_helpers.cpp:303-320 | the search finds the least match, and nothing only when there is none |
| QosXml.ScanTag | RtpDdsGateway/src/qos_xml_helpers.cpp:302-306 | the next opening tag from a position is the first marker there and the first `>` after it |
| QosXml.ParseProfilesOfBlock | RtpDdsGateway/src/qos_xml_helpers.cpp:326-347 | the inner loop pairs the library with every profile name of the block, in order |
| QosXml.ExtractFromBlockLoop | RtpDdsGateway/src/qos_xml_helpers.cpp:375-388 | the inner loop takes the first profile whose tag mentions the name, or none when that is unclosed |
| QosXml.ParseProfiles | RtpDdsGateway/src/qos_xml_helpers.cpp:292-355 | the listing loops end on every text and list what `Listing` reads from the front |
| QosXml.ExtractProfile | RtpDdsGateway/src/qos_xml_helpers.cpp:357-396 | the extracting loops end on every text and find what `Extract` reads from the front |
| QosXml.FindLibraryLoop | RtpDdsGateway/src/qos_xml_helpers.cpp:511-553 | the library searched for by merge is the first properly closed one of that name |
| QosXml.FindProfileLoop | RtpDdsGateway/src/qos_xml_helpers.cpp:561-595 | the profile searched for by merge is the first of that name, absent when unclosed |
| QosXml.MergeProfileIntoLibrary | RtpDdsGateway/src/qos_xml_helpers.cpp:464-615 | merging renames the profile and replaces or inserts it, or fails with the empty text |
| QosScan.TagsExist | RtpDdsGateway/src/qos_xml_helpers.cpp:301-305 | every text has its sequence of tags: each from the first marker after the one before to the first `>` after that |
| QosScan.NameExactly | RtpDdsGateway/src/qos_xml_helpers.cpp:306-320 | on any text, the name of a tag is what stands between the first quote after the first `name=` and the next quote of its kind, and is empty when there is no such value |
| QosScan.MentionsExactly | RtpDdsGateway/src/qos_xml_helpers.cpp:367-370 | a tag mentions a name if and only if the name stands in quotes of one kind directly after some `name=` |
| QosScan.NamesExactly | RtpDdsGateway/src/qos_xml_helpers.cpp:327-347 | on any text, a block lists the names of its profile tags that have one, in order |
| QosScan.ListingExactly | RtpDdsGateway/src/qos_xml_helpers.cpp:292-355 | on any text, a pair is listed if and only if a closed library of that name lists the profile and no named library before it is left unclosed |
| QosScan.BlockExactly | RtpDdsGateway/src/qos_xml_helpers.cpp:375-388 | on any text, a profile is taken from the first tag that mentions its name up to the closing marker after it, and there is none when nothing closes that one |
| QosScan.ExtractExactly | RtpDdsGateway/src/qos_xml_helpers.cpp:357-396 | on any text, a block is extracted if and only if it comes from a library that mentions the name, and every library before that mentions it is closed and does not give the profile |
| QosScan.LibraryExactly | RtpDdsGateway/src/qos_xml_helpers.cpp:511-553 | on any text, merge edits the first closed library of the name |
| QosScan.ProfileExactly | RtpDdsGateway/src/qos_xml_helpers.cpp:561-595 | on any text, merge replaces the first profile of the name, up to its closing marker, and finds none when nothing closes it |
| QosReading.ListingRendered | RtpDdsGateway/src/qos_xml_helpers.cpp:292-355 | on the text of a document the listing is the document's libraries and profile names in order |
| QosReading.ExtractRendered | RtpDdsGateway/src/qos_xml_helpers.cpp:357-396 | on the text of a document extraction gives the first profile whose tag mentions the name, in a library whose tag mentions its name |
| QosReading.LibraryFound | RtpDdsGateway/src/qos_xml_helpers.cpp:511-553 | merge finds the inside of the document's first library of that name |
| QosReading.ProfileFound | RtpDdsGateway/src/qos_xml_helpers.cpp:561-595 | merge finds the block of the library's first profile of that name |
| QosNaming.RenameOk | RtpDdsGateway/src/qos_xml_helpers.cpp:481-509 | after renaming, the tag's name reads as the new name and the substring test finds it |
| QosMerge.MergeRendered | RtpDdsGateway/src/qos_xml_helpers.cpp:464-615 | merging texts is merging documents: the text of the edited document, or failure when no library has the name |
| QosMerge.MergeNameless | RtpDdsGateway/src/qos_xml_helpers.cpp:533-536 | merging into a library without a name fails on every text |
| QosLaws.MergedText | RtpDdsGateway/src/qos_xml_helpers.cpp:464-615 | a successful merge leaves the text of a well-formed document |
| QosLaws.MergeSucceeds | RtpDdsGateway/src/qos_xml_helpers.cpp:511-557 | a merge succeeds if and only if the document has a library of that name |
| QosLaws.MergeGetPut | RtpDdsGateway/src/qos_xml_helpers.cpp:357-396 | extracting after a merge gives the merged block under its new name, if and only if its library is the first to answer for the names and no profile before it there carries its name in another attribute, or another library answers with the very same text |
| QosLaws.MergeFrameExactly | RtpDdsGateway/src/qos_xml_helpers.cpp:464-615 | extracting any library and profile gives what it gave before, if and only if the edited library is not theirs, or an earlier profile answers for them, or the slot written to gives the same text as before |
| QosLaws.MergeFrame | RtpDdsGateway/src/qos_xml_helpers.cpp:464-615 | so for every other library and profile whose names both scanners read alike in the document and in the new tag (`DocClear`, `TagClear`) |
| QosLaws.ListingAfterMerge | RtpDdsGateway/src/qos_xml_helpers.cpp:292-355 | the listing is unchanged if the name was in the library's group, and otherwise has it added at the end of that group |
| QosTags.PrintedMentions | RtpDdsGateway/src/qos_xml_helpers.cpp:274-282 | a printed profile tag has its own name and is mentioned by that and its base's name alone |
| QosTags.PrintedClear | RtpDdsGateway/src/qos_xml_helpers.cpp:274-282 | the two scanners agree on a printed tag for every name but its base's |
| QosCompress.CompressXml | RtpDdsGateway/src/qos_xml_helpers.cpp:398-462 | the loop with its three flags computes `Compress`, which `QosKept.CompressSelects` tells by positions |
| QosCompress.Idempotent | RtpDdsGateway/src/qos_xml_helpers.cpp:398-462 | compressing twice is compressing once, on every text |
| QosCompress.CompressKeepsText | RtpDdsGateway/src/qos_xml_helpers.cpp:398-462 | every character but space, tab, CR and LF is kept, in order |
| QosCompress.BlankVanishes | RtpDdsGateway/src/qos_xml_helpers.cpp:448-455 | between tags a text disappears if and only if it is white space |
| QosCompress.BlanksInTag | RtpDdsGateway/src/qos_xml_helpers.cpp:434-446 | inside a tag a run of white space leaves one space, or none |
| QosKept.CompressSelects | RtpDdsGateway/src/qos_xml_helpers.cpp:398-462 | on any text, exactly these characters are kept, in order: all but tabs, line ends, spaces whose last bracket before is `>`, and spaces in a tag that follow a space; before the first bracket spaces stay |
| QosKept.UnchangedExactly | RtpDdsGateway/src/qos_xml_helpers.cpp:398-462 | a text is its own compression if and only if it has no such character |
| QosKept.TagUnchanged | RtpDdsGateway/src/qos_xml_helpers.cpp:433-446 | a tag is its own compression if and only if it has no tab, line end or double space |
| QosLastWrite.LastWriteWins | RtpDdsGateway/src/qos_xml_helpers.cpp:597-609 | merging a and then b under one name compresses to the same text as merging b alone, if and only if only white space stood around a's block |
| QosStore.QosStore.ResolveFromProviders | RtpDdsGateway/src/qos_store.cpp:355-406 | the last loaded file that has the profile gives it; files passed over that have changed on disk are listed again, in place |
| QosLookup.ResolveLast | RtpDdsGateway/src/qos_store.cpp:355-406 | the last file that lists the profile, if need be on a second look, and holds it gives the answer, and there is none only when no file does; exactly the files from there on have been looked at |
| QosLookup.RefreshedExactly | RtpDdsGateway/src/qos_store.cpp:361-381 | a file passed over is listed again exactly when it did not list the name and has been written since; its provider stays |
| QosLookup.PackExactly | RtpDdsGateway/src/qos_store.cpp:384-397 | what a provider gives is the block of the profile followed by the blocks of its bases, each once, up to one that has no base, or whose base is missing or came before |
| QosChain.BaseOfExactly | RtpDdsGateway/src/qos_xml_helpers.cpp:278-281 | the base of a block is the quoted value of the first `base_name=` in its tag, split at its first separator, or a profile of the same library when it has none |
| QosStore.QosStore.FindOrReload | RtpDdsGateway/src/qos_store.cpp:408-491 | cache, dynamic provider, files, and files again after a reload, with the cache and version each path leaves; `QosLookup.LookupAbove` and `LookupFiles` say what each of them gives |
| QosLookup.LookupAbove | RtpDdsGateway/src/qos_store.cpp:408-449 | a cached name is answered from the cache and changes nothing; one that the dynamic side gives is answered so and cached |
| QosLookup.LookupFiles | RtpDdsGateway/src/qos_store.cpp:450-491 | any other name is given by the last loaded file that answers, or if none does by the last that answers once all are loaded anew, and is not found only when none does; with the cache, providers and version afterwards |
| QosLookup.AfterRescan | RtpDdsGateway/src/qos_store.cpp:499-507 | after any run and a reload, a name that the dynamic side does not give is found in the last file on the disk that has it, and not found only when none has |
| QosLookup.RunOrigin | RtpDdsGateway/src/qos_store.cpp:408-507 | after any run, each provider, and each cached pack that no update gave, is that of a file as it was when the files were last loaded |
| QosLookup.NeverOlder | RtpDdsGateway/src/qos_store.cpp:408-491 | so no lookup after any run gives anything older |
| QosStore.QosStore.ReloadAll | RtpDdsGateway/src/qos_store.cpp:499-507 | a reload replaces the file providers, empties the cache and counts up the version |
| QosStore.QosStore.AddOrUpdateProfile | RtpDdsGateway/src/qos_store.cpp:714-785 | an update merges into the dynamic library, a file that names it or the template, and invalidates exactly its own cache entry |
| QosLookup.FileKept | RtpDdsGateway/src/qos_store.cpp:722-735 | the first update of a library that files name leaves the other profiles of the first such file as they are there, and gives them from then on |
| QosLookup.TemplateIs | RtpDdsGateway/src/qos_store.cpp:733-741 | a library that no file names starts from an empty one in a document of its own |
| QosStore.QosStore.ListProfiles | RtpDdsGateway/src/qos_store.cpp:537-562 | the list is strictly sorted and holds exactly the dynamic names, those the loaded files list on disk now, and the requested builtin ones |
| QosLookup.AllListedExactly | RtpDdsGateway/src/qos_store.cpp:545-552 | the names listed from files are those that the first file at each loaded path lists now |
| QosLookup.FullNamesIff | RtpDdsGateway/src/qos_store.cpp:342-345 | a full name is in a list if and only if its library and profile are, for libraries that full names split back into |
| QosSorting.SortedUnique | RtpDdsGateway/src/qos_store.cpp:558-560 | sorting and dropping duplicates gives a strictly rising sequence of the same names |
| QosStoreLaws.SplitKey | RtpDdsGateway/src/qos_store.cpp:342-345 | a full name splits back into library and profile if and only if the library has no separator and no trailing colon |
| QosStoreLaws.SplitPlain | RtpDdsGateway/src/ipc_adapter.cpp:373-378 | every library name a request can name is such a library |
| QosStoreLaws.GoodMerge | RtpDdsGateway/src/qos_store.cpp:744-750 | merging into a text whose names can be told apart keeps it one, writes one profile and changes no other |
| QosStoreLaws.NewLibrary | RtpDdsGateway/src/qos_store.cpp:733-766 | the first update of an unknown library succeeds exactly when its provider can be made |
| QosStoreRuns.RunInv | RtpDdsGateway/src/qos_store.cpp:408-491 | on every run what was written last is what its library holds, and each cache entry for it is what the library gave when it was cached, from which only profiles written in that library differ by now |
| QosStoreRuns.CachedExactly | RtpDdsGateway/src/qos_store.cpp:772-774 | a cached dynamic profile is what its provider would give now, if and only if no profile of its library that it inherits from has been updated to another text since |
| QosStoreRuns.DynamicWins | RtpDdsGateway/src/qos_store.cpp:408-491 | on every run of lookups, updates and reloads each indexed name, split at its first separator, is found with the text last written and from the dynamic provider, whatever files and cache hold; what it inherits is up to date exactly under the condition of the row before |
| QosStoreCases.FirstUpdate | RtpDdsGateway/src/qos_store.cpp:714-785 | the runs of the last row exist: the first update of any library and profile is one |
| QosStoreCases.LaterUpdate | RtpDdsGateway/src/qos_store.cpp:722-763 | an update into a library written to before succeeds exactly when its provider can be made |
| QosStoreCases.StaleBase | RtpDdsGateway/src/qos_store.cpp:772-774 | after P is written, Q inheriting from it is written and asked for, and P is written with another text, a lookup of Q gives something else than its provider |
| DdsManager.DdsManager.CreateParticipantIn | RtpDdsGateway/src/dds_manager_entities.cpp:27-73 | one participant a domain |
| DdsManager.DdsManager.CreatePublisherLocked | RtpDdsGateway/src/dds_manager_entities.cpp:83-138 | one publisher of a name, in a domain that has its participant |
| DdsManager.DdsManager.CreateSubscriberLocked | RtpDdsGateway/src/dds_manager_entities.cpp:148-203 | the same for subscribers |
| RegistryOwners.ParticipantExactly | RtpDdsGateway/src/dds_manager_entities.cpp:27-73 | a participant is made if and only if its domain has none and nothing raises, and nothing else changes |
| RegistryOwners.OwnerExactly | RtpDdsGateway/src/dds_manager_entities.cpp:83-203 | a publisher or subscriber is made if and only if its domain has a participant and no other of its name and nothing raises; a second one is refused |
| DdsManager.DdsManager.CreateWriter | RtpDdsGateway/src/dds_manager_entities.cpp:238-372 | the maps and the result after each way a creation can succeed, be refused or throw, the event registration at the end included |
| DdsManager.DdsManager.CreateReader | RtpDdsGateway/src/dds_manager_entities.cpp:386-521 | the same for readers, where a failing topic QoS escapes |
| RegistryOwners.EndpointOwner | RtpDdsGateway/src/dds_manager_entities.cpp:268-275 | a creation makes its publisher or subscriber exactly when it gets that far and nothing raises, whatever becomes of the endpoint |
| DdsManager.DdsManager.FillWriterSlot | RtpDdsGateway/src/dds_manager_entities.cpp:277-350 | the part of a writer's creation after its slot has been looked up; when registering it for events raises, the writer is there all the same |
| DdsManager.DdsManager.FillReaderSlot | RtpDdsGateway/src/dds_manager_entities.cpp:427-500 | the same for readers, whose sample callback is set there too |
| DdsManager.DdsManager.TopicFor | RtpDdsGateway/src/dds_manager_entities.cpp:291-302 | the topic is reused, or made and kept, or the factory throws and only the domain's row is there |
| DdsManager.DdsManager.FindId | RtpDdsGateway/src/dds_manager_cleanup.cpp:66-74 | the nested search finds a slot with the id, and none only when no slot has it |
| DdsManager.DdsManager.TopicUsed | RtpDdsGateway/src/dds_manager_cleanup.cpp:91-106 | whether any owner of the domain still has the topic as a key |
| DdsManager.DdsManager.RemoveWriter | RtpDdsGateway/src/dds_manager_cleanup.cpp:61-122 | the nested search removes the writer of that id, drops emptied keys and forgets the type of a topic nobody uses |
| DdsManager.DdsManager.RemoveReader | RtpDdsGateway/src/dds_manager_cleanup.cpp:134-165 | the same for readers, which leave the type alone |
| RegistryOwners.RemovalExactly | RtpDdsGateway/src/dds_manager_cleanup.cpp:61-165 | a removal takes its slot as a key, and its owner when that has no other topic; a writer's forgets the type of a topic that has no slot left in the domain, and no other |
| DdsManager.DdsManager.ClearEntities | RtpDdsGateway/src/dds_manager_cleanup.cpp:19-49 | every map is empty and the id counter stays |
| RegistryOwners.NothingLeft | RtpDdsGateway/src/dds_manager_cleanup.cpp:19-49 | a clear leaves no participant, owner, endpoint, topic or recorded type |
| RegistryOwners.OwnersExactly | RtpDdsGateway/src/dds_manager_entities.cpp:27-203 | after any run a domain has a participant, and it a publisher or subscriber, if and only if one was made since the last clear |
| DdsManager.DdsManager.SetEventMode | RtpDdsGateway/src/dds_manager.cpp:68-79 | the mode changes exactly when no entity exists |
| DdsManager.DdsManager.PublishSlot | RtpDdsGateway/src/dds_manager_io.cpp:67-118 | one slot's writers are written to when its type is recorded, a sample can be made and the JSON converts |
| DdsManager.DdsManager.PublishToTopic | RtpDdsGateway/src/dds_manager_io.cpp:52-132 | every writer of the topic with a usable type is written to once, with a sample of the type it casts to; success means at least one write; a JSON that cannot be printed raises before anything is looked at |
| DdsManager.DdsManager.PublishToWriter | RtpDdsGateway/src/dds_manager_io.cpp:157-223 | the writers of one slot, each with a sample of its own type; exactly when it is refused or raises at once, and that success with nothing written means an empty slot |
| DdsManager.PublishTypedOnRuns | RtpDdsGateway/src/dds_manager_io.cpp:61-121 | on every run, whatever is published has the type of its topic and of the holder that casts it |
| RegistryLaws.RunKeeps | RtpDdsGateway/src/dds_manager_entities.cpp:238-372 | every run of creations, removals and clears, with every pattern of failures, keeps the registry's invariant |
| RegistryLaws.EndpointsInPlace | RtpDdsGateway/src/dds_manager_entities.cpp:251-347 | each endpoint has its publisher or subscriber and participant, is alone in its slot and is of the recorded and actual type of its topic |
| RegistryLaws.CreateDoes | RtpDdsGateway/src/dds_manager_entities.cpp:266-350 | a creation that makes an endpoint fills one slot with a fresh id and the topic's type, and succeeds unless registering it for events raises; one that makes none leaves every endpoint and recorded type alone |
| RegistryLaws.CreateSucceeds | RtpDdsGateway/src/dds_manager_entities.cpp:243-350 | with any pattern of failures a creation succeeds exactly for a known type, an existing participant, a free slot, the topic's own type, and the DDS calls it then makes |
| RegistryLaws.CreateMismatch | RtpDdsGateway/src/dds_manager_entities.cpp:249-263 | with any pattern of failures a creation of another type on an existing topic makes no endpoint; it is refused by the recorded type or, once that is forgotten and nothing raises before, by the factory |
| RegistryLaws.TopicStable | RtpDdsGateway/src/dds_manager_cleanup.cpp:92-114 | between clears a topic keeps its type, through removals and failed creations |
| RegistryLaws.LaterCreations | RtpDdsGateway/include/dds_type_registry.hpp:500-517 | every later creation that makes an endpoint on that topic is of that type |
| RegistryLaws.IdsIncrease | RtpDdsGateway/src/dds_manager_entities.cpp:344-346 | the ids given to endpoints over any run go strictly up, even across clears |
| RegistryLaws.RemoveByIdExact | RtpDdsGateway/src/dds_manager_cleanup.cpp:61-165 | removal succeeds if and only if the id is there, takes out that endpoint alone, and leaves it gone |
| RegistryLaws.FailedLeavesKey | RtpDdsGateway/src/dds_manager_entities.cpp:276-343 | a creation leaves a key behind exactly when it gets as far as its slot, and the slot is empty exactly when it was and no endpoint was made |
| Dispatcher.NoStaleHandler | RtpDdsGateway/src/async/waitset_dispatcher.cpp:18-208 | over all interleavings of the two threads with creation, safe removals, mode changes and clears, every registered handler and every handler being called belongs to a live holder, and Listener mode has none |
| Dispatcher.RemovalSafe | RtpDdsGateway/src/async/waitset_dispatcher.cpp:118-127 | removing a writer leaves no handler of it behind, if and only if its detach succeeds or it was not registered |
| Dispatcher.ReaderRemovalSafe | RtpDdsGateway/src/async/waitset_dispatcher.cpp:118-140 | the same for readers, whose read condition must moreover be found again under the one made for the removal |
| Dispatcher.ThreadKeeps | RtpDdsGateway/src/async/waitset_dispatcher.cpp:142-208 | every step of a thread loop keeps the invariant |
| Dispatcher.AllSooner | RtpDdsGateway/src/async/waitset_dispatcher.cpp:142-208 | while a clear waits, every step of either thread brings their exits closer, a wake-up, a time-out and an exception included |
| Dispatcher.JoinReached | RtpDdsGateway/src/async/waitset_dispatcher.cpp:39-51 | however the threads interleave after that, no more steps than they have left come before the join, there always is a next one, and in the end only the join |
| Dispatcher.WaitSetDispatcher.DetachAll | RtpDdsGateway/src/async/waitset_dispatcher.cpp:53-79 | both handler maps are empty afterwards even when conditions fail to detach |
| Dispatcher.WaitSetDispatcher.Start | RtpDdsGateway/src/async/waitset_dispatcher.cpp:18-37 | the step that ends a clear |
| Dispatcher.WaitSetDispatcher.Stop | RtpDdsGateway/src/async/waitset_dispatcher.cpp:39-51 | the step that begins a clear |
| Dispatcher.WaitSetDispatcher.AttachMonitorOf | RtpDdsGateway/src/async/waitset_dispatcher.cpp:81-99 | the step that registers a holder's status condition |
| Dispatcher.WaitSetDispatcher.AttachDataOf | RtpDdsGateway/src/async/waitset_dispatcher.cpp:101-116 | the step that registers a reader's read condition |
| Dispatcher.WaitSetDispatcher.DetachMonitorOf | RtpDdsGateway/src/async/waitset_dispatcher.cpp:118-127 | the step that unregisters a removed writer, or a removed reader's status condition |
| Dispatcher.WaitSetDispatcher.DetachDataOf | RtpDdsGateway/src/async/waitset_dispatcher.cpp:129-140 | the step that unregisters a removed reader's read condition |
| Dispatcher.WaitSetDispatcher.CallHandlers | RtpDdsGateway/src/async/waitset_dispatcher.cpp:157-171 | one wake-up calls the holder of each active condition that is registered and no guard, once and in their order, and nobody else |
| DispatcherServing.ServedExactly | RtpDdsGateway/src/async/waitset_dispatcher.cpp:142-206 | on every run, a thread that takes its lock and comes back to its loop without an exception has handled exactly the holders registered for its active conditions, in order, whatever the others did meanwhile |
| DispatcherServing.GoesOn | RtpDdsGateway/src/async/waitset_dispatcher.cpp:157-171 | a thread with its lock can always go on by itself and is nearer its end when it has |
| DispatcherServing.OneRound | RtpDdsGateway/src/async/waitset_dispatcher.cpp:146-155 | while the dispatcher runs a thread gets from the top of its loop to its lock with the conditions it was woken for; once stopped it leaves at each test |
| DispatcherServing.ActiveKept | RtpDdsGateway/src/async/waitset_dispatcher.cpp:149-157 | and it does so whatever the others do in between |
| DispatcherServing.AttachedCalled | RtpDdsGateway/src/async/waitset_dispatcher.cpp:81-206 | a holder whose condition was attached, and not asked to be detached since, is called whenever that condition is active |
| DispatcherServing.CreationAttaches | RtpDdsGateway/src/dds_manager.cpp:82-111 | in WaitSet mode a creation ends with the holder registered with its threads, in Listener mode with none |
| DispatcherServing.RemovalDetaches | RtpDdsGateway/src/dds_manager.cpp:113-131 | a removal whose detaches succeed ends with the holder gone from the maps |
| DispatcherServing.ModeChanges | RtpDdsGateway/src/dds_manager.cpp:68-79 | the mode changes exactly while there is no holder |
| DispatcherServing.ClearRestarts | RtpDdsGateway/src/dds_manager_cleanup.cpp:19-49 | a clear drops every handler once its threads have left, and starts them again when the last holder is gone |
| AsyncProcessor.PostsOnRuns | RtpDdsGateway/src/async/async_event_processor.cpp:60-111 | on every run each post is with its poster, queued, in flight, executed or dropped, exactly one of them, and jobs run in acceptance order |
| AsyncProcessor.TotalsOnRuns | RtpDdsGateway/include/async/async_event_processor.hpp:94-137 | the counters add up, and depth is at most the maximum recorded, which is at most the queue's size |
| AsyncHistory.CountersOnRuns | RtpDdsGateway/include/async/async_event_processor.hpp:94-137 | on every run each counter is the number of its own events: posts of each kind, jobs executed, jobs dropped; and the maximum depth is the greatest length the queue has had |
| AsyncProcessor.DrainRunsAll | RtpDdsGateway/src/async/async_event_processor.cpp:76-94 | with drain_stop the worker leaves only when every accepted job has run |
| AsyncProcessor.LeaveDrains | RtpDdsGateway/src/async/async_event_processor.cpp:76-111 | after a stop a worker that is not at its wait leaves by its own steps, having run the queue or dropped it as configured |
| AsyncProcessor.MissedWakeUp | RtpDdsGateway/src/async/async_event_processor.cpp:46-53 | a stop that clears and notifies between the worker's test and its wait leaves it waiting, with nothing left that could wake it but an unasked wake-up |
| AsyncProcessor.SticksExactly | RtpDdsGateway/src/async/async_event_processor.cpp:46-94 | whatever is left to do once running is cleared, some order of it leaves the worker waiting for good if and only if the worker is between test and wait, or waits with nobody yet to notify it, and no post that the queue accepts is under way |
| AsyncProcessor.SticksAtClear | RtpDdsGateway/src/async/async_event_processor.cpp:48-50 | at the clear that is a worker between its test and its wait with no such post |
| AsyncProcessor.LeavesExactly | RtpDdsGateway/src/async/async_event_processor.cpp:46-94 | every order of what is left ends within the steps left, and the worker leaves in all of them if and only if it may not stick |
| AsyncProcessor.ExitReached | RtpDdsGateway/src/async/async_event_processor.cpp:46-111 | on runs, unasked wake-ups included: the steps left go down, there is a next one until all is done and the worker has left or is stuck, and it never is where it could not stick; with drain_stop every accepted job has run or is queued |
| AsyncProcessor.LeavesDone | RtpDdsGateway/src/async/async_event_processor.cpp:76-94 | with drain_stop the queue is empty and every job accepted so far has run at the very step that leaves, so that only a job enqueued after it stays queued |
| AsyncProcessor.AsyncEventProcessor.StartWorker | RtpDdsGateway/src/async/async_event_processor.cpp:24-44 | a start step |
| AsyncProcessor.AsyncEventProcessor.StopWorker | RtpDdsGateway/src/async/async_event_processor.cpp:46-49 | the step that clears the flag, without the lock; only the call that does so goes on to notify and join |
| AsyncProcessor.AsyncEventProcessor.NotifyAll | RtpDdsGateway/src/async/async_event_processor.cpp:50 | the step of its notification |
| AsyncProcessor.AsyncEventProcessor.PostEvent | RtpDdsGateway/include/async/async_event_processor.hpp:94-117 | a post counts before its job is queued |
| AsyncProcessor.AsyncEventProcessor.EnqueueJob | RtpDdsGateway/src/async/async_event_processor.cpp:60-72 | the locked region of enqueue: drop at the limit and do not notify, or append and go on to notify |
| AsyncProcessor.AsyncEventProcessor.NotifyOne | RtpDdsGateway/src/async/async_event_processor.cpp:73 | the step of that notification |
| AsyncProcessor.AsyncEventProcessor.Ready | RtpDdsGateway/src/async/async_event_processor.cpp:82 | the wait's predicate holds exactly when the worker may go on, and otherwise it is about to block |
| AsyncProcessor.AsyncEventProcessor.Wait | RtpDdsGateway/src/async/async_event_processor.cpp:82 | the step that blocks and gives the lock up |
| AsyncProcessor.AsyncEventProcessor.TakeJob | RtpDdsGateway/src/async/async_event_processor.cpp:76-94 | the locked region of the loop: leave, drop all and leave, or take the front |
| AsyncProcessor.AsyncEventProcessor.FinishJob | RtpDdsGateway/src/async/async_event_processor.cpp:96-109 | a job counts as executed whether or not it threw |
| AsyncProcessor.AsyncEventProcessor.GetStats | RtpDdsGateway/include/async/async_event_processor.hpp:126-137 | a snapshot gives the counters as they are, and its totals differ from the posts only by jobs in the hands of posters and worker |
| IpcLaws.AsksExactly | RtpDdsGateway/src/ipc_adapter.cpp:355-602 | a request means a call if and only if its op, its target's kind and its fields, or their defaults, are those of the call |
| IpcLaws.HelloExactly | RtpDdsGateway/src/ipc_adapter.cpp:530-537 | and a greeting if and only if its op says so, whatever its kind |
| IpcRefusals.RequestMeans | RtpDdsGateway/src/ipc_adapter.cpp:355-602 | for every call with a 32-bit domain, a library that names split back from and non-empty required names there is a request that means it |
| IpcRefusals.OnlySound | RtpDdsGateway/src/ipc_adapter.cpp:355-602 | and no request means any other |
| IpcRefusals.RefusedExactly | RtpDdsGateway/src/ipc_adapter.cpp:355-640 | a request without a readable op and kind is broken; any other is broken, incomplete or unknown exactly as the table of the fields its operation reads says |
| IpcRefusals.ErrorsExactly | RtpDdsGateway/src/ipc_adapter.cpp:604-654 | error 6 is an incomplete request, error 7 an unreadable one or an exception, error 4 an unknown one or a failed call, and there is no other |
| IpcProcess.ProcessRequest | RtpDdsGateway/src/ipc_adapter.cpp:321-654 | the manager call made is the one the request asks for, whatever comes of it, and none if it asks for none or its data cannot be printed; the reply is ok if and only if that was achieved |
| IpcProcess.HandleCreate | RtpDdsGateway/src/ipc_adapter.cpp:370-497 | a creation is made exactly when the request's fields ask for it, and the reply is ok exactly when it came out well |
| IpcProcess.HandleWrite | RtpDdsGateway/src/ipc_adapter.cpp:499-528 | the same for publishing, where data that cannot be printed raises before the call |
| IpcProcess.HandleGet | RtpDdsGateway/src/ipc_adapter.cpp:539-568 | the same for listing profiles |
| IpcProcess.HandleSet | RtpDdsGateway/src/ipc_adapter.cpp:570-602 | the same for updating a profile |
| IpcLaws.OkMeansAchieved | RtpDdsGateway/src/ipc_adapter.cpp:604-640 | an answer says ok exactly when the greeting was returned or the call asked for came out well |
| IpcDispatch.CreationLibrary | RtpDdsGateway/src/ipc_adapter.cpp:370-497 | the QoS library of every creation request is one that full names split back into |
| IpcRequests.OneReplyEach | RtpDdsGateway/src/ipc_adapter.cpp:83-116 | on every run each delivered request is with its poster, queued, in process, dropped or answered, exactly one of them and with exactly one reply |
| IpcRequests.ReplyOrigin | RtpDdsGateway/src/ipc_adapter.cpp:83-116 | on every run each reply that is not a refusal comes from a step that ran its request's command, and is the answer to what the manager call of that step came out as |
| IpcRequests.RanOnce | RtpDdsGateway/src/gateway.cpp:56-71 | and no command runs twice |
| IpcRequests.RepliesFit | RtpDdsGateway/src/ipc_adapter.cpp:321-654 | every reply carries its request's corr_id and, whichever step ran its command, is the answer to that step's outcome, ok exactly when that outcome achieved what was asked; without a command sink it is error 7 |
| IpcRequests.CommandsKnown | RtpDdsGateway/src/gateway.cpp:56-71 | every command that comes to be executed has its request |
| Bytes.HtonllInMemory | DkmRtpIpc/src/dkmrtp_ipc.cpp:40-44 | the repository's 64-bit conversion leaves the number in memory in network byte order (RFC 791, appendix B) |
| Bytes.HtonllTwice | DkmRtpIpc/src/dkmrtp_ipc.cpp:40-44 | it undoes itself |
| FrameCodec.RoundTrip | DkmRtpIpc/src/dkmrtp_ipc.cpp:251-318 | a sent frame is received with its fields and payload if and only if the payload is neither empty nor larger than the buffer leaves room for |
| FrameCodec.OnlyFrames | DkmRtpIpc/src/dkmrtp_ipc.cpp:271-293 | whatever is accepted is the frame of the fields it is read as, with its length field equal to its payload |
| FrameCodec.SameLayout | Simulator/ipc_protocol.py:17-42 | the Python peer writes the same bytes and reads the same header |
| FrameCodec.DkmRtpIpc.SendRaw | DkmRtpIpc/src/dkmrtp_ipc.cpp:150-204 | the server's datagram is the frame whatever the reused buffer held, and nothing is sent without a peer |
| FrameCodec.DkmRtpIpc.Receive | DkmRtpIpc/src/dkmrtp_ipc.cpp:227-318 | what is delivered, and to which callback, depends on the datagram alone, as `FrameCodec.DeliveredExactly` tells |
| FrameCodec.DeliveredExactly | DkmRtpIpc/src/dkmrtp_ipc.cpp:251-318 | a frame of type 0x1000, 0x1001 or 0x1002 reaches the request, response or event callback with its fields and payload if and only if that one is set, any other frame the one for unhandled frames with its header, and one with no payload or more than 65512 bytes nobody |
| FrameCodec.OnlyFramesDelivered | DkmRtpIpc/src/dkmrtp_ipc.cpp:271-293 | nothing but frames reaches any callback |
| FrameCodec.FrameBytesAre | DkmRtpIpc/src/dkmrtp_ipc.cpp:150-204 | the bytes of a frame: 52 49 50 43, version 1, then type, corr_id, length and time stamp, most significant byte first |
| LogRotation.AsyncLogger.RotateLogs | DkmRtpIpc/src/triad_log.cpp:150-169 | the descending renames are `Rotate` |
| LogRotation.AsyncLogger.WriteLog | DkmRtpIpc/src/triad_log.cpp:123-148 | a full log is rotated before the line is appended |
| LogRotation.AsyncLogger.Push | DkmRtpIpc/src/triad_log.cpp:89-95 | a push step |
| LogRotation.AsyncLogger.WriteNext | DkmRtpIpc/src/triad_log.cpp:112-120 | a line is taken, others push or stop while the lock is free, and it is written |
| LogRotation.AsyncLogger.ProcessQueue | DkmRtpIpc/src/triad_log.cpp:103-121 | a turn of the worker leaves, or writes the queued lines and those pushed during the writes in order until the queue is empty, by steps of the state machine below |
| LogRotation.RotateAt | DkmRtpIpc/src/triad_log.cpp:150-169 | each file's content after a rotation: the one before it in line, the log for the first, nothing lost but the last backup |
| LogRotation.WrittenAt | DkmRtpIpc/src/triad_log.cpp:123-148 | each file after a write: rotated first if and only if the log is there and has reached the limit, and otherwise only the log is another, by its new line |
| LogRotation.SizeAdds | DkmRtpIpc/src/triad_log.cpp:130-139 | the size of a file is the sum of its parts' |
| LogRotation.SizeOne | DkmRtpIpc/src/triad_log.cpp:130-139 | and that of one line its length |
| LogRotation.Retention | DkmRtpIpc/src/triad_log.cpp:123-169 | on every run of writes the files read oldest first are the end of all lines, all of them up to as many rotations as backups; backups are used in order; files stop growing at the limit |
| LogRotation.FileSize | DkmRtpIpc/src/triad_log.cpp:137-139 | a file is shorter than the limit and its last line together if and only if the limit is above zero |
| LogRotation.LoggedInOrder | DkmRtpIpc/src/triad_log.cpp:89-121 | however pushes and worker interleave, lines are written in push order, and all of them before the worker leaves |
| LogRotation.StopDrains | DkmRtpIpc/src/triad_log.cpp:97-121 | after a stop the worker can get out by its own steps from wherever it is, having written every line in its hand and in the queue |
| TypeNames.Collector.Dfs | tools/emit_autoreg.py:20-38 | the search with one shared stack leaves the stack as it was and appends what `Collected` says |
| TypeNames.FilterTopics | tools/emit_autoreg.py:46-52 | each topic's full name once, and no other |
| TypeNames.Model.Walk | tools/emit_jsonbind.py:194-214 | the walk merges the structs it meets, the longest definition of a name staying |
| TypePaths.CollectedExactly | tools/emit_autoreg.py:20-38 | what is collected are the named structs anywhere in the tree, each under its own name and the names of the modules it stands in |
| TypePaths.WalkedExactly | tools/emit_jsonbind.py:194-214 | what is walked are the structs that stand in nothing but modules, under the names of those modules and their own |
| TypePaths.JoinSplits | tools/emit_jsonbind.py:34 | a full name splits back into the identifiers it was joined from |
| TypePaths.MergedGreatest | tools/emit_jsonbind.py:206-210 | of all definitions of a name the greatest number of members found stays |
| TypeNames.SameNames | tools/emit_jsonbind.py:194-214 | on tidy trees both generators meet the same full names in the same order |
| TypeNames.AgreeExactly | tools/emit_jsonbind.py:466-471 | on every forest of identifiers both generators name the same topic types, if and only if each topic nested in another definition is also met on its own and each unnamed struct whose modules' names make a topic is also met under a name |
| TypeNames.SameTopics | tools/emit_jsonbind.py:466-471 | so they do when structs in modules have names and nested structs are no topics |
| TypeNames.NestedDiffers | tools/emit_autoreg.py:31-36 | with a topic struct inside a struct they do not |

## Left out

- JsonRoundTrip.StructRoundTrip: members that are multi-dimensional arrays are not covered, because the generator neither encodes nor decodes them; floating-point values are real numbers without rounding.
- JsonSample.Sample.FromJson: what a member that fails to decode is itself left as (a cleared sequence, a partly written struct) is a parameter.
- The XML attributes from which the generator reads member types, and the generated text itself: the model starts from the type table.
- The JSON and CBOR library: its conversions between numbers and its typed reads are modelled, its parsing and printing are not.
- Error texts and log output: results are modelled by their category, their id and what they change.
- The QoS policies inside a profile and their printing: a profile is its text.
- QosStoreRuns.DynamicWins: covers runs over well-formed documents in which the scanners can tell the names in play apart, bases included, which a base_name without its library does not allow; calls come one at a time, as the manager's mutex makes them.
- `detail_profiles`, whose precedence differs from that of lookups; QoS inherited from several bases.
- QosStore.QosStore.ListProfiles: std::sort and std::unique are one sorting function.
- Entities inside DDS: holders are their id and type; listeners, sample callbacks and the statistics manager are not part of this model.
- Dispatcher.NoStaleHandler: covers runs whose removals are safe; whether the read condition made for a removal is found as the one registered depends on the library and is a parameter. The guard of a mode change is taken as "no endpoint" alone.
- The dispatcher's destructor, and a start while a stop is still joining.
- The event queue's monitor thread, handler setters and time measurements.
- The client branch of `send_raw`, which sends a buffer it has not filled; frames without payload, such as acknowledgements, are rejected on receipt.
- Sockets and select: a datagram is a byte sequence, cut off at the receive buffer's size.
- LogRotation.Retention: file-system errors, and the case of no backups at all, which keeps one backup all the same.
- Whether a queued sample event is still unchanged when it is processed: `ReaderHolder` reuses its pooled samples.
- The application's configuration, statistics output, RTI log bridge, simulators, test drivers and build files.
