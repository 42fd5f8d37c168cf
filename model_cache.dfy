/** The model-artifact cache of luga/artifacts.py: `model_loader` fetches the
    fastText model into a fixed file unless it is already there, and
    `model_deleter` removes a model file. The file system is reduced to a map
    from path to file contents and the HTTP transfer to a function from URL
    to response. */
module ModelCache {

  newtype Byte = x: int | 0 <= x < 256

  type Path = string

  /** `__MODEL_PATH / "language.bin"`, below the package directory. */
  const ModelFile: Path := "models/language.bin"

  /** The URL the module loads the model from when it is imported. */
  const ModelUrl: string := "https://dl.fbaipublicfiles.com/fasttext/supervised-models/lid.176.bin"

  /** What `client.get(url)` gives: the response body, or a transfer failure
      that `httpx` raises. */
  datatype Response = Body(content: seq<Byte>) | TransferError

  /** The files on disk, as far as the loader and the deleter see them. */
  class Storage {
    var files: map<Path, seq<Byte>>
    /** How many GET requests the loader has sent. */
    ghost var fetches: nat

    constructor (initial: map<Path, seq<Byte>>)
      ensures files == initial && fetches == 0
    {
      files := initial;
      fetches := 0;
    }

    /** `path.exists()`: whether the disk holds a file at `path`. */
    predicate Exists(path: Path)
      reads this
    {
      path in files
    }

    /** `model_loader`: when the model file is missing or `reDownload` is set,
        open the file for writing (which creates it empty), send one GET and
        write the body. A failed transfer raises after the open, so the empty
        file stays behind; `ok` is false exactly when that happens. Otherwise
        nothing is touched and nothing is sent. */
    method ModelLoader(modelUrl: string, get: string -> Response, reDownload: bool := false) returns (ok: bool)
      modifies this
      ensures Exists(ModelFile)
      ensures old(Exists(ModelFile)) && !reDownload ==>
                ok && files == old(files) && fetches == old(fetches)
      ensures !old(Exists(ModelFile)) || reDownload ==>
                fetches == old(fetches) + 1 &&
                ok == get(modelUrl).Body? &&
                files == old(files)[ModelFile := if ok then get(modelUrl).content else []]
    {
      ok := true;
      if !Exists(ModelFile) || reDownload {
        files := files[ModelFile := []];
        var response := get(modelUrl);
        fetches := fetches + 1;
        if response.TransferError? {
          return false;
        }
        files := files[ModelFile := response.content];
      }
    }

    /** `model_deleter`: false and no change when the file is missing,
        otherwise unlink it and answer true. */
    method ModelDeleter(modelFile: Path := ModelFile) returns (deleted: bool)
      modifies this
      ensures deleted == old(Exists(modelFile))
      ensures files == old(files) - {modelFile}
      ensures !Exists(modelFile)
      ensures fetches == old(fetches)
    {
      if !Exists(modelFile) {
        return false;
      }
      files := files - {modelFile};
      return true;
    }

    /** Two deletions in a row: the second finds nothing to delete, and the
        first reports whether the file was there. */
    method DeleteTwice(modelFile: Path) returns (first: bool, second: bool)
      modifies this
      ensures first == old(Exists(modelFile)) && !second
      ensures files == old(files) - {modelFile}
      ensures fetches == old(fetches)
    {
      first := ModelDeleter(modelFile);
      second := ModelDeleter(modelFile);
    }

    /** A second load without `reDownload` right after a first load sends no
        request and changes nothing: loading is idempotent. */
    method LoadTwice(modelUrl: string, get: string -> Response, reDownload: bool) returns (ok: bool)
      modifies this
      ensures var fetched := !old(Exists(ModelFile)) || reDownload;
        fetches == old(fetches) + (if fetched then 1 else 0) &&
        ok == (!fetched || get(modelUrl).Body?)
      ensures old(Exists(ModelFile)) && !reDownload ==> files == old(files)
      ensures (!old(Exists(ModelFile)) || reDownload) && ok ==>
                files == old(files)[ModelFile := get(modelUrl).content]
      ensures (!old(Exists(ModelFile)) || reDownload) && !ok ==>
                files == old(files)[ModelFile := []]
    {
      ok := ModelLoader(modelUrl, get, reDownload);
      var again := ModelLoader(modelUrl, get);
      ok := ok && again;
    }

    /** A failed transfer leaves an empty model file that the next plain load
        takes for the cached model: it sends no request and keeps the empty file. */
    method FailedLoadLeavesEmptyModel(modelUrl: string, get: string -> Response)
      requires get(modelUrl).TransferError?
      modifies this
      ensures files == old(files)[ModelFile := []]
      ensures fetches == old(fetches) + 1
    {
      var failed := ModelLoader(modelUrl, get, reDownload := true);
      var retried := ModelLoader(modelUrl, get);
    }

    /** The load the module runs when it is imported,
        `model_loader(model_url=__MODEL_URL)`: without `re_download`, so it
        downloads only on the first import on a machine. */
    method ImportTimeLoad(get: string -> Response) returns (ok: bool)
      modifies this
      ensures Exists(ModelFile)
      ensures old(Exists(ModelFile)) ==> ok && files == old(files) && fetches == old(fetches)
      ensures !old(Exists(ModelFile)) ==>
                fetches == old(fetches) + 1 &&
                ok == get(ModelUrl).Body? &&
                files == old(files)[ModelFile := if ok then get(ModelUrl).content else []]
    {
      ok := ModelLoader(ModelUrl, get);
    }
  }
}
