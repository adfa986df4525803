# MHUR Porting Blender add-on: a Dafny model

This project models the Blender side of MHUR Porting. That side is the add-on in
`MHURPortingBlender/MHURPortingBlender/__init__.py`. A desktop tool sends an import job to
Blender as UDP datagrams on port 24290. The add-on's background `Receiver` thread reassembles
the fragments until it sees the fragment `MessageFinished`, sets a shared `threading.Event`,
then decodes the text as JSON and stores the job in `self.data`. A Blender timer
(`handler`) polls that event every 0.01 s. When the event is set, it runs `import_response`
on the main thread. For each part of the job this:

- skips a part type that was already imported;
- resolves the mesh path (`<root>/<stem>_LOD0[.psk][.pskx]`) and calls the PSK importer;
- adds the `MHUR_Outline` material;
- applies the part's materials and then its override materials.

Applying a material either reuses an existing node material of the same name, or rebuilds
the slot's material (or a copy of it) around the toon-shader group. The rebuild drives the
shader's inputs from three rule tables: textures, scalars and vectors. Rule names match
case-insensitively.

The modules follow the program's structure:

- `Text`: the Python string built-ins the add-on relies on (`casefold`, `split`, leading-slash
  stripping, `os.path.join`).
- `Framing`: the inner receive loop as a function on fragments and on a packet stream that
  includes socket timeouts.
- `Receiver`: the receiver thread as a class whose `data` and event flag form a single-slot
  mailbox. `Run` is proved against the reference functions `Messages` and `PublishAll`.
- `Dispatch`: the timer handler, as the function `Tick` and the method `Handle` on a receiver
  and a scene; the import itself is a parameter `run` from scene and job to scene and success.
- `Rules` and `RuleTables`: `Utils.first` and the three mapping tables, which are the constants
  `TextureMappings`, `ScalarMappings` and `VectorMappings` of lines 85-98.
- `Paths`: mesh and texture path resolution, with the disk as an oracle.
- `Shading`: the three nested parameter binders and the three loops of `import_material`.
  They act on a group node given by its input links and default values.
- `Pipeline`: `import_material`, `create_outline_material`, the part loop of `import_response`
  and the name filter of `append_data`. All of these operate on a `World` value (materials
  by name, the slot names of each imported mesh, the image cache). The class `Scene` holds
  that state as fields; its methods are proved equal to the reference functions.

Exceptions the code raises deliberately or inevitably are modelled as values of
`Errors.Error`:

- `ResourcePathNotOneDot`: tuple unpacking of a texture path that does not split into
  exactly two pieces.
- `SlotIndexOutOfRange`: a bad slot index.
- `NoMaterialSlot`: `material_slots[0]` on a mesh without slots.
- `EmptySlot`: `target_material.name` on a slot that holds no material (line 142).
- `NoNodeTree`: `material_slots[0].material.node_tree` when slot 0 is empty or its material
  has no node tree (line 283).
- `MeshImportRaised`: an exception after the PSK importer succeeded: the rig set-up
  (lines 112-116, where `ikrig` is unbound for a non-armature object) or
  `armature.children[0]` (line 227).

An exception stops the loops that are running, exactly as a Python exception would.

Some behaviours of the code are easy to misread; the model follows the code:

- A message that fails to decode still sets the event. `self.event.set()` (line 66) runs
  before `json.loads` (line 67), so `data` keeps the previous job, which the handler then
  imports again. The decode error is then not caught: the third `except` clause (line 73)
  names `zlib`, which is never imported. Evaluating it raises a `NameError`, which ends the
  receive thread.
- A missing mesh file is not skipped by the add-on. When neither `.psk` nor `.pskx` exists
  (lines 105-108) the path goes to the importer without an extension, and the importer,
  an oracle here, decides whether the part is skipped.
- The handler's `except` block raises again. `Log.WARNING` is the colour-code string of line 30,
  and line 318 calls it, which raises a `TypeError` (and `traceback` is not imported).
  So a failed import leaves the handler with an exception before `import_event.clear()`
  (line 321), and the event is still set.

## Model

| member | source | states |
|---|---|---|
| Text.Fold | MHURPortingBlender/MHURPortingBlender/__init__.py:142 | case folding keeps the length, leaves no upper-case ASCII letter, keeps every other character and lowers each upper-case one by 32 |
| Text.StripSlash | MHURPortingBlender/MHURPortingBlender/__init__.py:102 | the input is the result with exactly one `/` put back in front when it started with one, and unchanged otherwise |
| Text.Split | MHURPortingBlender/MHURPortingBlender/__init__.py:103 | `split` gives at least one piece, no piece contains the separator, and joining the pieces with it gives back the input |
| Text.SplitLength | MHURPortingBlender/MHURPortingBlender/__init__.py:123 | a string splits into one more piece than it has separators |
| Text.SplitHead | MHURPortingBlender/MHURPortingBlender/__init__.py:103 | the first piece is the prefix before the first separator, and the whole string exactly when there is no separator |
| Text.PathJoin | MHURPortingBlender/MHURPortingBlender/__init__.py:128 | `os.path.join` ends with its second argument and returns it alone when it is absolute; otherwise it is the first argument, then one `/` unless the first is empty or already ends with `/`, then the second |
| Framing.TerminatorIndex | MHURPortingBlender/MHURPortingBlender/__init__.py:63-64 | the position found holds `MessageFinished` and no earlier fragment does |
| Framing.Frame | MHURPortingBlender/MHURPortingBlender/__init__.py:60-65 | the inner loop completes a message exactly when a terminator fragment arrives |
| Framing.FrameIsConcatBeforeTerminator | MHURPortingBlender/MHURPortingBlender/__init__.py:59-65 | the completed message is the concatenation of every fragment before the first terminator, and receiving continues right after it |
| Framing.FragmentationInvariant | MHURPortingBlender/MHURPortingBlender/__init__.py:59-65 | two fragmentations of the same text, each followed by the terminator, frame the same message with the same remainder |
| Framing.TerminatorAfter | MHURPortingBlender/MHURPortingBlender/__init__.py:63-65 | terminator-free fragments followed by the terminator frame their concatenation, and framing resumes after the terminator |
| Framing.SplitFragmentFramesSame | MHURPortingBlender/MHURPortingBlender/__init__.py:60-65 | cutting one fragment into two before the terminator frames the same message: what came before, then both pieces |
| Framing.Messages | MHURPortingBlender/MHURPortingBlender/__init__.py:57-70 | the reference definition of the receive loop: the messages it delivers from a packet stream, described by Framing.OneMessagePerTerminator, Framing.MessagesFollowFrame, Framing.EmptyDatagramIgnored and Framing.TimeoutDiscardsPartial |
| Framing.OneMessagePerTerminator | MHURPortingBlender/MHURPortingBlender/__init__.py:57-70 | the receive loop over a packet stream delivers exactly one message per terminator datagram |
| Framing.MessagesFollowFrame | MHURPortingBlender/MHURPortingBlender/__init__.py:57-70 | over a run of datagrams the receive loop delivers the framed message and carries on after it; without a terminator it only grows the accumulator |
| Framing.EmptyDatagramIgnored | MHURPortingBlender/MHURPortingBlender/__init__.py:62 | inserting an empty datagram anywhere changes none of the delivered messages |
| Framing.SingleMessageDelivered | MHURPortingBlender/MHURPortingBlender/__init__.py:57-67 | fragments followed by the terminator deliver exactly one message, their concatenation |
| Framing.TimeoutDiscardsPartial | MHURPortingBlender/MHURPortingBlender/__init__.py:57-70 | a socket timeout in the middle of a message discards what was accumulated, because the outer loop restarts with an empty string |
| Receiver.Decodable | MHURPortingBlender/MHURPortingBlender/__init__.py:66-76 | the messages the thread publishes before it ends: a prefix whose messages all decode, and which is followed by one that does not, unless it is the whole run |
| Receiver.Published | MHURPortingBlender/MHURPortingBlender/__init__.py:66-67 | one completed message sets the event; `data` becomes the decoded job, or keeps the previous one when decoding fails |
| Receiver.PublishAll | MHURPortingBlender/MHURPortingBlender/__init__.py:57-76 | publishing a run of messages sets the event iff it was set or a message arrived, and an empty run changes nothing |
| Receiver.PublishAllLatestWins | MHURPortingBlender/MHURPortingBlender/__init__.py:57-76 | after a run of messages the event is set iff it was set or a message arrived, and `data` is the job of the last decodable message before the thread ends (an undrained older job is lost) |
| Receiver.MalformedKeepsPrevious | MHURPortingBlender/MHURPortingBlender/__init__.py:66-67 | a message that fails to decode still sets the event and leaves the previous job in `data` |
| Receiver.MalformedStopsReceiving | MHURPortingBlender/MHURPortingBlender/__init__.py:69-76 | after a message that fails to decode, no later message reaches the mailbox |
| Receiver.Receiver.constructor | MHURPortingBlender/MHURPortingBlender/__init__.py:44-47 | a new receiver holds no job and its event is cleared |
| Receiver.Receiver.Publish | MHURPortingBlender/MHURPortingBlender/__init__.py:66-67 | sets the event, then replaces `data` only when the message decodes, and reports whether it did |
| Receiver.Receiver.Run | MHURPortingBlender/MHURPortingBlender/__init__.py:57-76 | the mailbox after the receive loop over a packet stream is `PublishAll` of the messages `Messages` frames from that stream |
| Dispatch.Tick | MHURPortingBlender/MHURPortingBlender/__init__.py:312-322 | the import runs iff the event is set; `data` is never touched; the scene is what the import left, even when it raised, and unchanged when no import ran (a `None` job raises at `response.get`, after `append_data`, whose loading is not modelled); the handler re-arms at 0.01 s unless it raised, which it does exactly when the job is `None` or the import raised; the event stays set exactly when the handler raises |
| Dispatch.Handle | MHURPortingBlender/MHURPortingBlender/__init__.py:312-322 | the receiver's state, the scene, the call and the outcome after the handler are those `Tick` gives |
| Dispatch.DrainTwice | MHURPortingBlender/MHURPortingBlender/__init__.py:313-321 | after a successful drain, the next call imports nothing, leaves the scene as it is and re-arms |
| Dispatch.LatestWinsAtDrain | MHURPortingBlender/MHURPortingBlender/__init__.py:313-315 | two decodable messages before a drain: the handler imports the second job, and the scene is the one that job's import leaves |
| Dispatch.MalformedMessageReplaysPrevious | MHURPortingBlender/MHURPortingBlender/__init__.py:66-67 | an undecodable message after a drained job makes the next call import that job again on the current scene |
| Dispatch.FailedImportStaysPending | MHURPortingBlender/MHURPortingBlender/__init__.py:314-321 | a failed import raises out of the handler, keeps the event set and the job in place, and keeps its scene changes; a further call runs the same job again on that changed scene |
| Rules.First | MHURPortingBlender/MHURPortingBlender/__init__.py:230-235 | `None` for an empty table; otherwise the first element satisfying the predicate, or the default when none does; anything else returned is a matching element |
| Rules.Next | MHURPortingBlender/MHURPortingBlender/__init__.py:233-235 | `next(filter(...), default)` is the first matching element, or the default when none matches |
| Rules.Lookup | MHURPortingBlender/MHURPortingBlender/__init__.py:165 | the rule found is the first in the table whose name has the same case fold as the parameter's name; none is found exactly when no rule matches |
| Rules.LookupIgnoresCase | MHURPortingBlender/MHURPortingBlender/__init__.py:191 | names with equal case folds find the same rule |
| Rules.ColorTextureInAnyCase | MHURPortingBlender/MHURPortingBlender/__init__.py:86-88 | `ColorTexture` matches its rule when spelt `colortexture`, `COLORTEXTURE` or `ColorTexture`, and `Color Texture` does not (`LookupIgnoresCase` is the general fact) |
| Paths.MeshStem | MHURPortingBlender/MHURPortingBlender/__init__.py:102-103 | the mesh stem is the slash-stripped path up to, not including, its first `.`: a dot-free prefix, followed by a `.` unless it is the whole path, which it is exactly when the path has no `.` |
| Paths.MeshBase | MHURPortingBlender/MHURPortingBlender/__init__.py:103 | the extensionless mesh path ends with the stem followed by `_LOD0`, and starts with the assets root, followed by more, when the stem is not absolute |
| Paths.ResolveMesh | MHURPortingBlender/MHURPortingBlender/__init__.py:102-108 | the path is one of four candidates; `.psk` is appended iff that file exists; `.pskx` is then appended iff it exists after the first probe; with neither file the path has no extension |
| Paths.StemOfDotted | MHURPortingBlender/MHURPortingBlender/__init__.py:102-103 | for `a.c` with a dot-free `a`, the stem is `a` |
| Paths.MissingMeshKeepsBarePath | MHURPortingBlender/MHURPortingBlender/__init__.py:102-108 | a package path `/a.ext` with no mesh file on disk goes to the importer as `root/a_LOD0` |
| Paths.ResourceParts | MHURPortingBlender/MHURPortingBlender/__init__.py:123 | unpacking into path and name succeeds iff the value holds exactly one `.`, and the value is then path, `.`, name |
| Paths.TextureFile | MHURPortingBlender/MHURPortingBlender/__init__.py:127-128 | the texture file ends with the slash-stripped path and `.png`, and starts with the assets root, followed by more, when that path is not absolute |
| Paths.ResolveTexture | MHURPortingBlender/MHURPortingBlender/__init__.py:122-133 | raises iff the value does not hold exactly one `.`; a cached image of that name is returned as is; otherwise the `.png` under the root is loaded when it exists, and nothing is returned when it does not |
| Paths.CacheHitIgnoresDisk | MHURPortingBlender/MHURPortingBlender/__init__.py:124-125 | a cache hit does not depend on the disk |
| Paths.TextureNullOnlyWhenMissing | MHURPortingBlender/MHURPortingBlender/__init__.py:130-131 | `None` only when the value is well formed, its name is not cached and its file is missing |
| Shading.TextureBinding | MHURPortingBlender/MHURPortingBlender/__init__.py:161-174 | an unmatched name or an `_FX` value on slot 12 binds nothing; otherwise the result is exactly texture resolution's: its exception, nothing for a missing image, or the rule's slot with the resolved image |
| Shading.TextureSkippedIff | MHURPortingBlender/MHURPortingBlender/__init__.py:161-174 | a texture binds nothing exactly when its name matches no rule, it is an `_FX` value on slot 12, or its image is missing |
| Shading.BindTexture | MHURPortingBlender/MHURPortingBlender/__init__.py:161-185 | a texture links exactly the rule's input to the image, changing no default and no other link; a skipped one changes nothing |
| Shading.SetScalar | MHURPortingBlender/MHURPortingBlender/__init__.py:187-196 | a matched scalar sets exactly the rule's input, and an unmatched one changes nothing |
| Shading.SetVector | MHURPortingBlender/MHURPortingBlender/__init__.py:198-213 | a matched vector sets its input to (R, G, B, 1) and the alpha input to A when the rule names one (nonzero); no other input changes |
| Shading.BindTextures | MHURPortingBlender/MHURPortingBlender/__init__.py:215-216 | the texture loop changes no default value, removes no link, and with no parameter matching a rule changes nothing and raises nothing; the links it makes are given by Shading.BindTexturesLastWins |
| Shading.SetScalars | MHURPortingBlender/MHURPortingBlender/__init__.py:218-219 | the scalar loop changes no link and removes no default value |
| Shading.SetVectors | MHURPortingBlender/MHURPortingBlender/__init__.py:221-222 | the vector loop changes no link and removes no default value; the values it sets are given by Shading.SetVectorsLastWins |
| Shading.BuildShader | MHURPortingBlender/MHURPortingBlender/__init__.py:146-222 | the rebuilt node tree's links and exception are those of the texture loop, and after an exception no default was set, since the scalar and vector loops never ran |
| Shading.BindParameters | MHURPortingBlender/MHURPortingBlender/__init__.py:215-222 | the three loops leave the shader and the exception that the reference `BuildShader` gives: textures in order until the first exception, then scalars, then vectors |
| Shading.FxTextureNeverBinds | MHURPortingBlender/MHURPortingBlender/__init__.py:170-171 | an `_FX` texture on slot 12 changes nothing, whatever the disk and cache hold |
| Shading.SetScalarsSnoc | MHURPortingBlender/MHURPortingBlender/__init__.py:218-219 | the scalar loop over a list and one more scalar is the loop followed by that scalar |
| Shading.SetScalarsLastWins | MHURPortingBlender/MHURPortingBlender/__init__.py:218-219 | each input ends with the value of the last scalar aimed at it, and an input no scalar targets keeps its value |
| Shading.SetVectorWrites | MHURPortingBlender/MHURPortingBlender/__init__.py:198-213 | one vector leaves an input with what it writes there (the alpha value when the input is the rule's nonzero alpha input, since that write comes last, else the colour on the rule's input) and every other input as it was |
| Shading.SetVectorsSnoc | MHURPortingBlender/MHURPortingBlender/__init__.py:221-222 | the vector loop over a list and one more vector is the loop followed by that vector |
| Shading.SetVectorsLastWins | MHURPortingBlender/MHURPortingBlender/__init__.py:198-222 | each input ends with what the last vector writing it put there, and an input no vector writes keeps its value |
| Shading.BindTexturesSnoc | MHURPortingBlender/MHURPortingBlender/__init__.py:215-216 | the texture loop over a list and one more texture is the loop followed by that texture, unless the loop already raised |
| Shading.BindTexturesLastWins | MHURPortingBlender/MHURPortingBlender/__init__.py:215-216 | when no texture raises, each input ends linked to the image of the last texture binding it (a later `links.new` replaces the earlier link), and an input no texture binds keeps its link |
| Pipeline.SlotOf | MHURPortingBlender/MHURPortingBlender/__init__.py:272 | list indexing succeeds iff the index is within the slot count either way, counting from the end for negative indices |
| Pipeline.CopyName | MHURPortingBlender/MHURPortingBlender/__init__.py:145 | renaming the copy keeps the name asked for when no material has it, and otherwise gives that name followed by `.` and Blender's suffix; the result has the asked name's case fold exactly when the name was free |
| Pipeline.Rebuilt | MHURPortingBlender/MHURPortingBlender/__init__.py:141-145 | the material rebuilt is the slot's own when the names agree ignoring case; otherwise it is the copy, named as asked when that name is free and named `name.<suffix>` (so with a different case fold) when it is taken; either way it is named after the material data |
| Pipeline.MaterialImport | MHURPortingBlender/MHURPortingBlender/__init__.py:136-222 | a bad index raises and changes nothing; otherwise only the target slot can change; an existing node material of exactly that name is bound and nothing else changes; else an empty slot raises and changes nothing; else the slot holds the `Rebuilt` material, which becomes a node material with a node tree and the shader `BuildShader` gives, and the exception is `BuildShader`'s |
| Pipeline.SecondImportReuses | MHURPortingBlender/MHURPortingBlender/__init__.py:138-145 | a copy under a free name leaves the slot holding a material of exactly that name, and once the slot holds it, importing the same data again binds it as it is and changes nothing |
| Pipeline.TakenNameCopiesAgain | MHURPortingBlender/MHURPortingBlender/__init__.py:138-145 | when the name asked for belongs to a material without nodes (as with the importer's default material on slot 0, which holds the outline by then), the copy gets a suffixed name, that material is left as it was, and importing the same data again copies once more, under a different name when Blender's names are fresh |
| Pipeline.CopyLeavesOriginal | MHURPortingBlender/MHURPortingBlender/__init__.py:142-145 | when the names differ, the slot's previous material is untouched and only its copy is rebuilt, given that Blender's name for a copy under a taken name is free |
| Pipeline.MaterialsImport | MHURPortingBlender/MHURPortingBlender/__init__.py:270-272 | a material list changes only the slots of its mesh and never the image cache or any slot count |
| Pipeline.MaterialsImportSnoc | MHURPortingBlender/MHURPortingBlender/__init__.py:270-272 | a list and one more material applies the list, then that material unless the list raised |
| Pipeline.MaterialsLastWins | MHURPortingBlender/MHURPortingBlender/__init__.py:270-276 | after a list applies without an exception, each slot holds a material named after the last entry aimed at it (the same name ignoring case, or Blender's `name.<suffix>` when the name was taken), and a slot no entry targets keeps its material |
| Pipeline.MaterialImportOnSlot | MHURPortingBlender/MHURPortingBlender/__init__.py:136-145 | one clean import aimed at a slot leaves it holding a material named after the material data; a slot it does not aim at keeps its material |
| Pipeline.WithOutline | MHURPortingBlender/MHURPortingBlender/__init__.py:280 | `bpy.data.materials.new` adds exactly one material, under the name Blender picks, without nodes or a node tree, and leaves every other material as it was |
| Pipeline.OutlineCreation | MHURPortingBlender/MHURPortingBlender/__init__.py:278-296 | the new outline material is always created and no other material changes; a mesh without slots raises `NoMaterialSlot` and changes no slot; an empty slot 0 or one without a node tree raises `NoNodeTree` and changes no slot; otherwise one slot is appended, it and slot 0 hold the outline material, and no other slot or mesh changes |
| Pipeline.PartMaterials | MHURPortingBlender/MHURPortingBlender/__init__.py:270-276 | materials then overrides only change slots of the part's mesh |
| Pipeline.NewPart | MHURPortingBlender/MHURPortingBlender/__init__.py:263-276 | a new part records its type under a new mesh appended after all earlier ones; it raises `NoMaterialSlot` exactly when the mesh has no slots and `NoNodeTree` exactly when slot 0 has no node tree after the outline is created; any other exception is a material exception, and without an outline exception the mesh ends with one more slot |
| Pipeline.PartMaterialsRaiseOnlyMaterialErrors | MHURPortingBlender/MHURPortingBlender/__init__.py:268-276 | applying a part's materials and overrides raises only material exceptions: a bad index, an empty slot or a bad texture path |
| Pipeline.MaterialsRaiseOnlyMaterialErrors | MHURPortingBlender/MHURPortingBlender/__init__.py:270-272 | a material list raises only material exceptions |
| Pipeline.TexturesRaiseOnlyBadPaths | MHURPortingBlender/MHURPortingBlender/__init__.py:215-222 | the only exception the parameter loops raise is a texture path without exactly one dot |
| Pipeline.BindTexturesRaiseOnlyBadPaths | MHURPortingBlender/MHURPortingBlender/__init__.py:215-216 | the texture loop raises only a path without exactly one dot |
| Pipeline.PartImport | MHURPortingBlender/MHURPortingBlender/__init__.py:257-276 | a part with an already recorded type, or whose mesh import fails, changes nothing; an exception after a successful import stops with the world and records unchanged; any other part is handled as a new part |
| Pipeline.PartsImport | MHURPortingBlender/MHURPortingBlender/__init__.py:256-276 | the part loop never changes the image cache or an earlier mesh, never drops a recorded type and never removes a mesh |
| Pipeline.ResponseImport | MHURPortingBlender/MHURPortingBlender/__init__.py:238-276 | `import_response` records only the job's part types, adds exactly one mesh per recorded type after the meshes already there, and leaves the earlier meshes and the image cache alone |
| Pipeline.ImportRaisedStopsJob | MHURPortingBlender/MHURPortingBlender/__init__.py:258-266 | an exception after a part's mesh imported ends the job with that part unrecorded and the world unchanged |
| Pipeline.OneMeshPerRecordedType | MHURPortingBlender/MHURPortingBlender/__init__.py:256-266 | the part loop keeps earlier records, adds as many meshes as it records new part types, and records only types of the given parts |
| Pipeline.PartImportRecords | MHURPortingBlender/MHURPortingBlender/__init__.py:258-266 | one part adds a mesh exactly when it records its type, and it records no other type |
| Pipeline.DuplicatePartSkipped | MHURPortingBlender/MHURPortingBlender/__init__.py:259-260 | first wins: after a part of some type imports, a later part of that type changes nothing |
| Pipeline.FailedPartRetried | MHURPortingBlender/MHURPortingBlender/__init__.py:261-262 | a part whose mesh failed to import is not recorded, so the loop proceeds as though it were absent |
| Pipeline.OverrideWins | MHURPortingBlender/MHURPortingBlender/__init__.py:270-276 | after a part imports cleanly, a slot an override targets holds a material named after the last such override (same name ignoring case, or its suffixed variant), whatever the primary materials set |
| Pipeline.PartOverridesWin | MHURPortingBlender/MHURPortingBlender/__init__.py:270-276 | on an outlined mesh, a part's materials then overrides leave a slot an override targets holding a material named after the last such override |
| Pipeline.MissingNames | MHURPortingBlender/MHURPortingBlender/__init__.py:298-311 | the names `append_data` loads are exactly the library's names that are not yet present |
| Pipeline.AppendIsIdempotent | MHURPortingBlender/MHURPortingBlender/__init__.py:298-311 | once the missing names are added, appending again loads nothing |
| Pipeline.Scene.ImportMaterial | MHURPortingBlender/MHURPortingBlender/__init__.py:136-222 | the scene after `import_material`, and its exception, are those of `MaterialImport` |
| Pipeline.Scene.CreateOutlineMaterial | MHURPortingBlender/MHURPortingBlender/__init__.py:278-296 | the scene after `create_outline_material`, and its exception, are those of `OutlineCreation` |
| Pipeline.Scene.ImportMaterials | MHURPortingBlender/MHURPortingBlender/__init__.py:270-276 | one material loop leaves the scene that `MaterialsImport` gives, stopping at the first exception |
| Pipeline.Scene.ImportPart | MHURPortingBlender/MHURPortingBlender/__init__.py:258-276 | one iteration of the part loop leaves the scene, the records and the exception of `PartImport` |
| Pipeline.Scene.ImportResponse | MHURPortingBlender/MHURPortingBlender/__init__.py:256-276 | the part loop of `import_response` leaves the scene, `imported_parts` and the exception of `ResponseImport` |

## Left out

- Socket set-up and shutdown (`bind`, `settimeout`, `stop`, lines 52-55 and 78-81) and the thread start in `register` are not modelled. The receive loop is given the sequence of packets the socket yields, and a timeout or other `OSError` is the `Timeout` packet.
- UTF-8 decoding of datagrams is not modelled: packets carry text. Like a JSON error, a decoding error would end the thread.
- `json.loads` is the oracle `parse`, and in `Dispatch` the import is the parameter `run`, from the scene and the job to the scene it leaves and whether it returned. The model does not tie `run` to `Pipeline.ResponseImport`, or derive a `Response` from the decoded JSON.
- The PSK importer, `MHURRig`, `ApplyRig` and the `UseIk` setting (lines 110-116), and `mesh_from_armature` (line 227) are left out. Together they are the oracle `Host.importMesh`, which returns the new mesh's slot names and created materials, `NotImported` when the importer fails, or `ImportRaised` when lines 112-116 or 227 raise after a successful import. `UseIk` is carried but not used. What the importer itself added to the scene before such an exception is not modelled. The oracle depends only on the file path, and its created materials are merged into the scene by key, so an importer whose result depends on the scene (one that renames or reuses materials already present) is represented only when no mesh file is imported twice in one job.
- Node-tree cosmetics are left out: output and emission nodes, node locations, `hide`, `alpha_mode`, the linear colour space flag (unused by the tables), and the emission nodes and link added to slot 0's old material (lines 153-159, 176-183, 283-292). Only the precondition of those lines, that slot 0 holds a material with a node tree, is modelled.
- Shading.SetVector: does not model the `TypeError` fallback to `int(value["A"])` (lines 210-213), because socket values are opaque reals here.
- Shading.SetScalar: does not check that a slot is a valid shader input index, and neither do the other binders; Blender would raise for an out-of-range input.
- Text.Fold: folds only ASCII letters; Python's `casefold` also folds other Unicode characters.
- Pipeline.OutlineCreation: the outline material's name, which Blender makes unique (`MHUR_Outline.001` and so on), comes from the oracle `Host.newMaterialName`. The model does not state that the name is fresh.
- The `hasTree` flag of `Pipeline.Material` stands for whether a material has a node tree; the importer's oracle decides it for the materials it creates, and a material that gets `use_nodes` in `import_material` is given one.
- Pipeline.CopyName: the suffix Blender appends to a taken name is the oracle `Host.copySuffix`, and the copy's temporary name from `copy()` is not modelled. That the resulting name is free is Blender's guarantee, not derived: `FreshCopyName` states it, and Pipeline.CopyLeavesOriginal and Pipeline.TakenNameCopiesAgain take it as a hypothesis where they need it. Blender's own renaming is modelled only for names that do not end in `.` followed by digits and that fit in Blender's 63-byte ID names; the exporter's material names are Unreal object names, which contain no `.`. For a taken name such as `Body.001` Blender renumbers to `Body.002` (or the lowest free number) rather than appending to it, and a name over 63 bytes is truncated, so it is neither kept as asked nor found again by name at line 138; the model promises neither case.
- Pipeline.Rebuilt: its "named as asked" and `name.<suffix>` cases rest on CopyName's naming, so they hold only for names without a trailing `.` plus digits and of at most 63 bytes (see Pipeline.CopyName).
- Pipeline.SecondImportReuses: part (b), finding the copy again by name, holds in Blender only for names of at most 63 bytes; part (a) also needs the name not to end in `.` plus digits (see Pipeline.CopyName).
- Pipeline.TakenNameCopiesAgain: the `name.` prefix of the copy's name assumes a name without a trailing `.` plus digits and of at most 63 bytes (see Pipeline.CopyName).
- Pipeline.MaterialImportOnSlot: "named after" the material data assumes a name without a trailing `.` plus digits and of at most 63 bytes (see Pipeline.CopyName).
- Pipeline.MaterialsLastWins: "named after" the last entry assumes its name has no trailing `.` plus digits and at most 63 bytes (see Pipeline.CopyName).
- Pipeline.PartOverridesWin: "named after" the last override assumes its name has no trailing `.` plus digits and at most 63 bytes (see Pipeline.CopyName).
- Pipeline.OverrideWins: "named after" the last override assumes its name has no trailing `.` plus digits and at most 63 bytes (see Pipeline.CopyName).
- Paths.ResolveTexture: a loaded image is not entered into the name cache (`bpy.data.images.load` with `check_existing` returns the same image for the same file).
- The job's `Name` and `Type` and the logging and `print` calls (lines 249-254) are carried or dropped, since they affect nothing else.
- `append_data` is modelled only as its name filter (`MissingNames`). Loading the library blend file and the node group lookup (line 157) are not modelled.
- `unregister` and the timer registration (lines 324-336) are not modelled. Blender unregisters a timer whose callback raises; the model only reports the `Raise` outcome and does not model the timer afterwards.
- Receiver.Receiver.Publish and Dispatch.Handle are each treated as one atomic step. The code takes no lock, so the handler can run between lines 66 and 67: it would import the previous job and clear the event, and the new job would then sit in `data` without a signal. Interleavings inside a step are not modelled.
- Text.PathJoin: models POSIX `posixpath.join` only; on Windows `os.path.join` is `ntpath.join`, which also treats `\` as a separator and handles drive letters.
- Rules.VectorRule: has exactly one alpha element, as every entry of the add-on's vector table does; a two-element rule, for which `extra[0]` (line 209) would raise an `IndexError`, cannot be written.
- `Log` defines no `error`, so the handlers of lines 71-76 would raise too. Only the decode-error path reaches them in the model (at line 73, as above); an `EOFError` from the socket is not modelled.
