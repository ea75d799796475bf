/**
 * The `upload-file` action registered by example-hyperdrive.ts, as an
 * instance of a custom action, and how the reducer of index.ts runs it.
 */
module SampleActions {
  import opened Values
  import opened Views
  import opened Batch
  import Reducer

  /** `view.put(filename, content)` with both read from the top level of the node value. */
  function UploadFile(value: Js, v: View): (r: Result<seq<ViewOp>>)
    ensures r.Ok? <==> Prop(value, "filename").Str?
    ensures r.Ok? ==> r.value == [Put(Prop(value, "filename").s, Prop(value, "content"))]
  {
    var filename := Prop(value, "filename");
    if filename.Str? then Ok([Put(filename.s, Prop(value, "content"))])
    else Err(TypeError("the path must be a string"))
  }

  /**
   * An `upload-file` node as the example appends it (no `record`) reaches
   * the action, which overwrites the path: unlike the blob branch, a second
   * upload to the same name replaces the first.
   */
  lemma UploadOverwrites(cfg: Reducer.Config, files: map<string, Js>, writers: set<Bytes>, name: string, first: Js, second: Js)
    requires cfg.viewType == Hyperdrive && "upload-file" in cfg.actions && cfg.actions["upload-file"] == UploadFile
    ensures var up1 := Obj(map["type" := Str("upload-file"), "filename" := Str(name), "content" := first]);
            var up2 := Obj(map["type" := Str("upload-file"), "filename" := Str(name), "content" := second]);
            var r := Run(Reducer.Stepper(cfg), Reducer.Router(cfg), Reducer.State(Drive(files), writers), [up1, up2]);
            && r.error.None?
            && r.state == Reducer.State(Drive(files[name := second]), writers)
            && r.trace == [Dispatched(CustomAction("upload-file", up1)), Dispatched(CustomAction("upload-file", up2))]
  {
    var up1 := Obj(map["type" := Str("upload-file"), "filename" := Str(name), "content" := first]);
    var up2 := Obj(map["type" := Str("upload-file"), "filename" := Str(name), "content" := second]);
    var s0 := Reducer.State(Drive(files), writers);
    UploadStep(cfg, files, writers, name, first);
    UploadStep(cfg, files[name := first], writers, name, second);
    assert files[name := first][name := second] == files[name := second];
    assert [up1][1..] == [];
    RunSnoc(Reducer.Stepper(cfg), Reducer.Router(cfg), s0, [up1], up2);
    assert [up1] + [up2] == [up1, up2];
  }

  /** One `upload-file` node: the action puts the content at the file name. */
  lemma UploadStep(cfg: Reducer.Config, files: map<string, Js>, writers: set<Bytes>, name: string, content: Js)
    requires cfg.viewType == Hyperdrive && "upload-file" in cfg.actions && cfg.actions["upload-file"] == UploadFile
    ensures var up := Obj(map["type" := Str("upload-file"), "filename" := Str(name), "content" := content]);
            && Reducer.Router(cfg)(up) == CustomAction("upload-file", up)
            && Reducer.Stepper(cfg)(Reducer.State(Drive(files), writers), up)
                 == Step(Reducer.State(Drive(files[name := content]), writers), None)
  {
    var up := Obj(map["type" := Str("upload-file"), "filename" := Str(name), "content" := content]);
    assert Prop(up, "type") == Str("upload-file") && Prop(up, "filename") == Str(name);
    assert Prop(Prop(up, "record"), "blob") == Undefined;
    assert Reducer.RouteOf(cfg, up) == CustomAction("upload-file", up);
    assert cfg.actions["upload-file"](up, Drive(files)) == Ok([Put(name, content)]);
    assert ApplyOps(Drive(files), [Put(name, content)]) == (Drive(files[name := content]), None);
  }
}
