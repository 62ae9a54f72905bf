/** The errors the pool and its helpers report. */
module Errors {

  import opened Paths

  /** The filesystem operations whose failure the pool passes on. */
  datatype Op = CreateFile | TouchFile | StatFile | CloseFile | RemoveDir

  datatype Error =
    /** An operation of the filesystem failed on a path. */
    | PathError(op: Op, path: Path)
    /** The backing file of a temporary path could not be created; `err` is the cause. */
    | CreateFail(filePath: string, err: Error)
  {
    /** The message of a `CreateFail`: it names the path that failed. */
    function Message(): (s: string)
      requires CreateFail?
      ensures |CreateFailPrefix| + |filePath| < |s|
      ensures s[|CreateFailPrefix|..|CreateFailPrefix| + |filePath|] == filePath
      ensures s[..|CreateFailPrefix|] == CreateFailPrefix && s[|s| - 1] == '\''
    {
      CreateFailPrefix + filePath + "'"
    }

    /** The cause wrapped in a `CreateFail`, strictly smaller than the error itself. */
    function Unwrap(): (cause: Error)
      requires CreateFail?
      ensures cause < this
      ensures CreateFail(filePath, cause) == this
    {
      err
    }
  }

  const CreateFailPrefix: string := "failed to create temporary file '"
}
