# jeu-desprit: discrete cores of the game and its asset tools, in Dafny

This project models the parts of the jeu-desprit repository that are discrete
logic rather than rendering or float maths, and proves what they promise:

- **Collision-loop exporter** (`collision/blender_export.py`): a Blender script
  that checks edit mode, checks that the mesh has a face, and writes the vertex
  ring of face 0 into `~/jeu_desprit/collision/collision_loop.h` as a
  brace-initializer block (`collision_export.dfy`, module `CollisionExport`).
- **OBJ cooker** (`models/obj_cooker.c`, `cook`): turns a Wavefront OBJ file
  into a C header by tokenising it with `strtok_r` and dispatching on the first
  character of each line (`obj_cooker.dfy`, module `ObjCooker`).
- **Keyframe bracketing** (`src/anim.h`, `animdata_sample`): the search for the
  two keyframes around a time, in `size_t` arithmetic, and the skeleton's limb
  table (`anim.dfy`, module `Anim`).
- **Wall placement** (`src/cad.h`, `cad_frame`): posts stored in a fixed array
  of ten slots (`cad.dfy`, module `Cad`).
- **Widget state** (`src/gui.h`): the option picker, the checkbox, a window's
  close button and early return, and the per-frame mouse flags (`gui.dfy`,
  module `Gui`).

`wrappers.dfy` holds the `Option` and `Result` datatypes the modules share, and
`modular.dfy` the remainder facts used by the wrap-around steps of `Anim` and `Gui`.

State that the C and Python code update in place is modelled imperatively:
`Cad.CadState` keeps `posts` as an `array`, `Gui` widgets update the objects
their pointers name, and the cooker, the exporter and the sampler are methods
with the C and Python loops, each proved equal to a specification function whose
properties are proved as lemmas.

Modelling choices:

- Exporter: the context is the object mode string and the list of faces, each
  face the positions of its loop vertices in loop order. Python's float-to-text
  conversion is the parameter `fmt`. The file system is a map from path to the
  strings written to that file. The open file handle is a local buffer. Closing
  the handle stores the buffer in the map.
- Cooker: the three number printers (`%10f` of `strtof`, `%3d` of
  `srgb2linear(strtof)`, `%5ld`) are the uninterpreted functions of a `Formats`
  value. `strtol` is modelled exactly, with white space, sign, leading digits
  only, and clamping to the range of `long`. `strlcpy` into the 999-byte
  `model_name` keeps at most 998 characters. The text `strtok_r` sees ends at
  the first NUL byte of the buffer.
- Sampler: frame times are reals. The blend of the two frames (`tween_t` and
  `f3_lerp`) is the parameter `mix`, given both poses and the three times.
  `size_t` is 64 bits wide, and its wrap-around is written out (`SizeT`).
- Mouse position, button and hover state are parameters of the methods that
  read them.

How the exporter's failures and output are modelled:

- The script raises plain `Exception`s with the messages "Must be in Edit Mode"
  and "No faces found in the mesh". The model names the two failures
  `NotInEditMode` and `NoFacesFound` and keeps the messages
  (`ExportError.Message`).
- The script accepts a face with any number of loops, and so does the model.
- Lines are written from the first loop of face 0 onwards, in loop order.

## Model

| member | source | states |
|---|---|---|
| `CollisionExport.ExportText` | collision/blender_export.py:6-36 | Fails with NotInEditMode exactly when the mode is not "EDIT". Fails with NoFacesFound exactly when in edit mode with no faces. Otherwise yields `{`, one line per loop of face 0 in loop order, then `}`: the face's loop count + 2 lines. |
| `CollisionExport.VertexLines` | collision/blender_export.py:32-34 | One line per loop, the i-th line built from the i-th loop's vertex, untransformed, with no dedup or closing repeat. |
| `CollisionExport.JoinPath` | collision/blender_export.py:24-25 | The output path starts with the home directory and ends with `jeu_desprit/collision/collision_loop.h`. A `/` is inserted between them exactly when the home directory is non-empty and does not already end in `/`. |
| `CollisionExport.EditModeCheckedFirst` | collision/blender_export.py:6-19 | A context not in edit mode fails with NotInEditMode whatever its faces, including none. |
| `CollisionExport.OnlyFirstFaceExported` | collision/blender_export.py:22 | Faces after face 0 never change the output. |
| `CollisionExport.AppendLoopAddsOneLine` | collision/blender_export.py:29-36 | One more loop adds exactly one line just before the closing brace and moves no other line. |
| `CollisionExport.Disk.Export` | collision/blender_export.py:6-38 | A failing run raises before opening the file and changes no file. A successful run replaces the output file's content with the block ("w" mode), leaves every other file alone, and reports the done message. |
| `CollisionExport.ExportTwice` | collision/blender_export.py:28-36 | Two runs on the same face leave the output file with identical content, equal to the block of face 0. |
| `ObjCooker.Split` | models/obj_cooker.c:67-72 | The tokens `strtok_r` yields are non-empty and contain no delimiter. |
| `ObjCooker.SplitAtDelimiter` | models/obj_cooker.c:103-108 | A delimiter separates tokens, and a run of delimiters yields no empty token: splitting `a + d + b` gives the tokens of `a` followed by those of `b`. |
| `ObjCooker.SplitSingleToken` | models/obj_cooker.c:72 | A non-empty word without a delimiter is a single token. |
| `ObjCooker.StrTokR` | models/obj_cooker.c:103 | One `strtok_r` call returns NULL exactly when only delimiters remain. Otherwise it returns the next token, and the following call resumes after it. |
| `ObjCooker.UpToNul` | models/obj_cooker.c:47-51 | The text the tokeniser sees is a NUL-free prefix of the buffer, and it stops only at the end of the buffer or at a NUL. It is therefore the whole prefix before the first NUL. |
| `ObjCooker.StrToL` | models/obj_cooker.c:98-100 | `strtol` stays within the range of `long`. |
| `ObjCooker.StrToLReadsLeadingInteger` | models/obj_cooker.c:98-100 | A word made of digits and then a non-digit is read as its leading integer. |
| `ObjCooker.FaceIndexExample` | models/obj_cooker.c:98 | The face word `7/2/3` is printed as index 6. |
| `ObjCooker.ModelName` | models/obj_cooker.c:81 | The recorded model name is a prefix of the word: the whole word when it has at most 998 characters, and exactly its first 998 characters otherwise. |
| `ObjCooker.Cook` | models/obj_cooker.c:65-110 | The header always ends with the final `};`. |
| `ObjCooker.EmitWord` | models/obj_cooker.c:79-100 | The chain of `if`s prints the word's text for its kind and index, and overwrites `model_name` only at word 1 of an `o` line. |
| `ObjCooker.EmitLine` | models/obj_cooker.c:71-105 | The word loop with its `index` counter prints the line's text and leaves the model name that line records. |
| `ObjCooker.CookBuffer` | models/obj_cooker.c:65-110 | The nested `strtok_r` loops print exactly `Cook` of the buffer. |
| `ObjCooker.KindIsFirstCharacter` | models/obj_cooker.c:73-105 | Two lines whose first words share their first character, and whose other words agree, print and record the same. |
| `ObjCooker.NormalLineCookedAsVertex` | models/obj_cooker.c:84-90 | A `vn` line prints what the `v` line with the same numbers prints. |
| `ObjCooker.ObjectLine` | models/obj_cooker.c:79-82 | An `o` line prints `gl_geo_Vtx model_vtx_<second word>[] = {` and records the second word as the model name. |
| `ObjCooker.SmoothLine` | models/obj_cooker.c:93-96 | An `s` line prints `};`, a blank line and `gl_Tri model_tri_<name>[] = {` with the current model name, which it keeps. |
| `ObjCooker.FaceLine` | models/obj_cooker.c:98-100 | An `f` line prints its first three indices, each the word's leading integer minus one, and drops any fourth or later index. |
| `ObjCooker.VertexLineShape` | models/obj_cooker.c:84-105 | A `v`-kind line starts with `  {` and ends with `},` and a newline, whatever its word count. |
| `ObjCooker.OtherLineSilent` | models/obj_cooker.c:79-100 | A line of any other kind prints nothing and keeps the model name. |
| `ObjCooker.CookLinesAppend` | models/obj_cooker.c:68-108 | Cooking one more line appends that line's text, printed with the name the earlier lines recorded. |
| `ObjCooker.SmoothLineUsesLatestModel` | models/obj_cooker.c:79-96 | An `s` line names its triangle array after the most recent `o` line before it. |
| `Anim.Ordinal` | src/anim.h:3-20 | Every joint key is below `animdata_JointKey_COUNT`. |
| `Anim.OrdinalInjective` | src/anim.h:3-19 | Distinct joint keys have distinct values. |
| `Anim.LimbConnectionsFormSkeleton` | src/anim.h:22-37 | Every limb joins two distinct joints below the count. No limb ends at the hips, and every other joint ends exactly one limb. Each limb ends one step deeper than it starts, by a depth that is 0 only at the hips. |
| `Anim.PathFromHips` | src/anim.h:22-37 | Every joint is reached from the hips by a chain of limbs from the table: the chain starts at the hips, each limb starts where the previous one ends, and the last ends at the joint. With the lemma above, the limbs form a tree rooted at the hips. |
| `Anim.SizeT` | src/anim.h:69-75 | `size_t` reduction: `-1` is `SIZE_MAX`, `SIZE_MAX + 1` is 0, and values in range are unchanged. |
| `Anim.FirstLater` | src/anim.h:69-71 | The search stops at the first frame later than `anim_t`: every earlier frame is at or before it. |
| `Anim.FirstLaterUnique` | src/anim.h:69-71 | Only one index has the two properties of the search's stopping point. |
| `Anim.FrameIndices` | src/anim.h:69-75 | rhs is always `(lhs + 1) mod count`. After the first later frame r > 0, the pair is (r - 1, r). When no frame is later, it is (count - 1, 0). When frame 0 is later than `anim_t`, lhs underflows to `SIZE_MAX`. |
| `Anim.NextFrameTime` | src/anim.h:76 | After the last frame the blend runs to the animation's duration. Otherwise it runs to the time of the first frame later than `anim_t` (frame rhs). |
| `Anim.FrameIndicesBracket` | src/anim.h:69-77 | When frame 0 is not later than `anim_t`, both indices are in range and frame lhs is at or before `anim_t`. Frame rhs follows lhs and is later than `anim_t`, or wraps to 0 after the last frame. With sorted times, lhs is the latest frame at or before `anim_t`. |
| `Anim.Sample` | src/anim.h:62-85 | The search loop with its `break` and the index arithmetic blend only frames lhs and rhs of the requested joint. |
| `Cad.NewPost` | src/cad.h:48-50 | A new post has null `next`/`last` links and the mouse's ground position. |
| `Cad.CadState.constructor` | src/cad.h:17-23 | The zero-initialised state: not placing, no posts, every slot zero. |
| `Cad.CadState.Frame` | src/cad.h:45-62 | When not placing, or placing without a click, the posts and count are unchanged. A placing click writes the new post at slot `post_count` and adds one to the count. Slots below the old count never change. The frame draws the preview post, if any, then every placed post. |
| `Gui.Flip` | src/gui.h:106 | `^= 1` on a bool flips it. |
| `Gui.FlipIf` | src/gui.h:106 | The value changes exactly when clicked. |
| `Gui.FlipIfTwice` | src/gui.h:106 | Two clicks restore the value. |
| `Gui.PickLeft` | src/gui.h:228 | The left arrow moves from 0 to `option_count - 1`, and otherwise one down. The result stays below the option count. |
| `Gui.PickRight` | src/gui.h:232 | The right arrow moves one up and wraps from the last option to 0. The result stays below the option count. |
| `Gui.RightThenLeft` | src/gui.h:228-232 | A left step undoes a right step. |
| `Gui.LeftThenRight` | src/gui.h:228-232 | A right step undoes a left step. |
| `Gui.GuiState.ArrowButton` | src/gui.h:186-217 | An arrow button is clicked exactly when it is hovered in a frame where the button was released. |
| `Gui.GuiState.Picker` | src/gui.h:219-236 | Reports a change exactly when an arrow was clicked, so only in a frame where the button was released over an arrow. The label shown is that of the state after the left step. The state stays a valid option. |
| `Gui.GuiState.Checkbox` | src/gui.h:88-116 | A click on the hovered box flips the bool, and the check mark is drawn for the new value. |
| `Gui.GuiState.WabisabiWindow` | src/gui.h:240-386 | A closed window returns before emitting anything and changes nothing. An open window records its drag bar as pressed when the button goes down over it. Its close button flips `open`. |
| `Gui.GuiState.UiMain` | src/gui.h:605-679 | Sets the click and press flags from the pointer state. The options toggle and the close button each flip the window. When the button was released this frame, `lmb_down_el` ends the frame as the zero id. |

## Left out

- The cooker's I/O: `fopen`, `fread`, `fclose`, `malloc`, and the directory walk in its `main`. The header it writes is the returned text.
- Home-directory expansion in the exporter. The exporter's `print`, which the model reports as the done message.
- CollisionExport.Disk.Export: `open(output_path, "w")` never fails in the model. The script raises there (a missing `~/jeu_desprit/collision/` directory, a read-only one) after both guards have passed, writes nothing and prints no done message. The model instead returns the done message whenever both guards pass.
- Float arithmetic and printing: Python's float-to-text conversion, `strtof`, `%10f`, `srgb2linear` (`powf`, `roundf`), `%3d`, `%5ld`. These are uninterpreted parameters.
- Blender's `bpy` and `bmesh` objects and `ensure_lookup_table`. The model's context holds only what the script reads from them.
- ObjCooker.StrToL: the result is clamped to the range of `long`, but `errno` is not modelled, and neither is the overflow of `LONG_MIN - 1` when an `f` word reads as `LONG_MIN`.
- ObjCooker.Cook: requires at least one non-empty line and a word on every line. Otherwise `cook` reads `word[0]` through a NULL pointer, which is undefined behaviour.
- Anim.Sample: requires `frames[0].time <= anim_t`, because otherwise `lhs_frame` is `SIZE_MAX` and frame lhs is read out of bounds (`FrameIndices` shows the underflow). It also requires a non-empty frame list, because `% 0` is undefined.
- The blend itself (`tween_t`'s division and `f3_lerp`) is the parameter `mix`. The base pose table and the included animation headers are data and are not modelled.
- Cad.CadState.Frame: requires a free slot when a click places a post, because `cad_frame` writes `posts[post_count++]` with no capacity check. `cad_draw_wall` is modelled only as the list of posts drawn.
- `cad_InputState` (src/cad.h:4-9) is declared but read by no code, so it is not modelled.
- gui.h layout and drawing: Clay elements, icon sizes, cursor changes, `ui_slider`, window dragging (float maths), `gl_geo_box_rounded`, the UI-scale transform, and the options window's contents. Setting `lmb_down_el` from the slider handle is left out with the slider. Hovering is an input.
- The rest of the game: `src/math.h`, `src/vector.h`, `src/particle.h` (float numerics), `src/main.c` (SDL and GL event loop) and `src/geometry_assets.h` (a generated table).
