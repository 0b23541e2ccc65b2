/**
 * The collision-loop exporter (collision/blender_export.py).
 *
 * The Blender script checks that the active object is in edit mode, checks
 * that its mesh has at least one face, takes face 0 and writes the vertex
 * ring of that face, one `write` call per line, into
 * `~/jeu_desprit/collision/collision_loop.h` as a brace-initializer block.
 *
 * The editing context is abstracted to a mode string and the list of faces,
 * each face being the coordinates of the vertices met along its loops, in
 * loop order.  Python's conversion of a float to text is the parameter `fmt`.
 * The file system is a map from path to the sequence of strings written to
 * that file.
 */
module CollisionExport {
  import opened Wrappers

  /** A vertex position `vert.co`, in local mesh space. */
  datatype Vec3 = Vec3(x: real, y: real, z: real)

  /** A face: the positions of `loop.vert` for each loop of the face, in loop order. */
  type Face = seq<Vec3>

  /** What the script reads from Blender: the object mode and the BMesh face table. */
  datatype Context = Context(mode: string, faces: seq<Face>)

  /** The two exceptions the script raises. */
  datatype ExportError = NotInEditMode | NoFacesFound {
    /** The message each exception carries. */
    function Message(): string
    {
      match this
      case NotInEditMode => "Must be in Edit Mode"
      case NoFacesFound => "No faces found in the mesh"
    }
  }

  /** The path relative to the home directory that the script writes. */
  const RelativeOutput: string := "jeu_desprit/collision/collision_loop.h"

  /** The status message printed after a successful export. */
  const DoneMessage: string := "Data written to 'collision_loop.h'"

  /** `os.path.join(home, rel)` on POSIX for a relative `rel`. */
  function JoinPath(home: string, rel: string): (p: string)
    ensures |p| == |home| + |rel| || |p| == |home| + |rel| + 1
    ensures p[..|home|] == home && p[|p| - |rel|..] == rel
    ensures (home == [] || home[|home| - 1] == '/') <==> |p| == |home| + |rel|
    ensures |p| == |home| + |rel| + 1 ==> p[|home|] == '/'
  {
    if home == [] || home[|home| - 1] == '/' then home + rel else home + "/" + rel
  }

  /** The text written for one loop vertex: `    { x, y, z },\n`. */
  function VertexLine(v: Vec3, fmt: real -> string): string
  {
    "    { " + fmt(v.x) + ", " + fmt(v.y) + ", " + fmt(v.z) + " },\n"
  }

  /** The vertex lines of a face, in loop order. */
  function VertexLines(face: Face, fmt: real -> string): (ls: seq<string>)
    ensures |ls| == |face|
    ensures forall i :: 0 <= i < |face| ==> ls[i] == VertexLine(face[i], fmt)
  {
    if face == [] then [] else VertexLines(face[..|face| - 1], fmt) + [VertexLine(face[|face| - 1], fmt)]
  }

  /** The whole block written for a face. */
  function LoopBlock(face: Face, fmt: real -> string): seq<string>
  {
    ["{\n"] + VertexLines(face, fmt) + ["}\n"]
  }

  /** What one run of the script produces: an exception, or the strings written to the file. */
  function ExportText(ctx: Context, fmt: real -> string): (r: Result<seq<string>, ExportError>)
    ensures ctx.mode != "EDIT" <==> r == Err(NotInEditMode)
    ensures ctx.mode == "EDIT" && ctx.faces == [] <==> r == Err(NoFacesFound)
    ensures r.Ok? ==> ctx.faces != [] && |r.value| == |ctx.faces[0]| + 2
    ensures r.Ok? ==> r.value[0] == "{\n" && r.value[|r.value| - 1] == "}\n"
    ensures r.Ok? ==> forall i :: 0 <= i < |ctx.faces[0]| ==> r.value[i + 1] == VertexLine(ctx.faces[0][i], fmt)
  {
    if ctx.mode != "EDIT" then Err(NotInEditMode)
    else if |ctx.faces| == 0 then Err(NoFacesFound)
    else Ok(LoopBlock(ctx.faces[0], fmt))
  }

  /** A context that is not in edit mode fails with that error whatever its faces are. */
  lemma EditModeCheckedFirst(mode: string, faces1: seq<Face>, faces2: seq<Face>, fmt: real -> string)
    requires mode != "EDIT"
    ensures ExportText(Context(mode, faces1), fmt) == ExportText(Context(mode, faces2), fmt) == Err(NotInEditMode)
  {
  }

  /** Only face 0 matters: the faces after it never change the output. */
  lemma OnlyFirstFaceExported(ctx: Context, others: seq<Face>, fmt: real -> string)
    requires ctx.faces != []
    ensures ExportText(ctx, fmt) == ExportText(Context(ctx.mode, [ctx.faces[0]] + others), fmt)
  {
  }

  /**
   * Adding one loop to the face adds exactly one line, just before the
   * closing brace, and leaves every other line where it was: the output
   * follows the loop order with no reordering, deduplication or closing repeat.
   */
  lemma {:induction false} AppendLoopAddsOneLine(face: Face, v: Vec3, fmt: real -> string)
    ensures LoopBlock(face + [v], fmt) == LoopBlock(face, fmt)[..|face| + 1] + [VertexLine(v, fmt), "}\n"]
  {
    assert (face + [v])[..|face|] == face;
  }

  /**
   * The file system as seen by the script: one entry per existing file,
   * holding the strings written to it in order.
   */
  class Disk {
    var files: map<string, seq<string>>

    constructor (initial: map<string, seq<string>>)
      ensures files == initial
    {
      files := initial;
    }

    /**
     * One run of the script.  The guards run before the file is opened, so a
     * failing run changes no file; a successful run truncates the output file
     * (mode "w") and leaves every other file alone.
     */
    method Export(ctx: Context, home: string, fmt: real -> string) returns (r: Result<string, ExportError>)
      modifies this
      ensures ExportText(ctx, fmt).Err? ==> r == Err(ExportText(ctx, fmt).error) && files == old(files)
      ensures ExportText(ctx, fmt).Ok? ==>
        r == Ok(DoneMessage) && files == old(files)[JoinPath(home, RelativeOutput) := ExportText(ctx, fmt).value]
    {
      if ctx.mode != "EDIT" {
        return Err(NotInEditMode);
      }
      if |ctx.faces| == 0 {
        return Err(NoFacesFound);
      }
      var face := ctx.faces[0];
      // `open(output_path, "w")`: the handle starts empty, whatever the file held.
      var file: seq<string> := [];
      file := file + ["{\n"];
      for i := 0 to |face|
        invariant file == ["{\n"] + VertexLines(face[..i], fmt)
      {
        assert face[..i + 1][..i] == face[..i];
        file := file + [VertexLine(face[i], fmt)];
      }
      assert face[..|face|] == face;
      file := file + ["}\n"];
      // Leaving the `with` block closes the handle: the file now holds what was written.
      files := files[JoinPath(home, RelativeOutput) := file];
      r := Ok(DoneMessage);
    }
  }

  /** Two runs on the same face leave the output file with identical content. */
  method ExportTwice(ctx: Context, home: string, fmt: real -> string, initial: map<string, seq<string>>)
    returns (first: seq<string>, second: seq<string>)
    requires ctx.mode == "EDIT" && ctx.faces != []
    ensures first == second == LoopBlock(ctx.faces[0], fmt)
  {
    var disk := new Disk(initial);
    var path := JoinPath(home, RelativeOutput);
    var _ := disk.Export(ctx, home, fmt);
    first := disk.files[path];
    var _ := disk.Export(ctx, home, fmt);
    second := disk.files[path];
  }
}
