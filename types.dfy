/** Records shared by the uploader's packages (internal/cfg/cfg.go), and the
    option and error values that stand for Go's `error` returns. */
module Types {

  datatype Option<+T> = None | Some(value: T)

  /** A unit of work sent to the workers: the path of one discovered file. */
  datatype Message = Message(file: string)

  /** The liveness record each worker writes into its own slot. */
  datatype WorkerStatus = WorkerStatus(id: int, running: bool)

  /** The configuration fields that the core reads. */
  datatype AppConfig = AppConfig(
    workersChannelSize: nat,
    s3bucket: string,
    s3path: string,
    pathToWatch: string,
    gzip: bool,
    encrypt: bool,
    gzipDir: string,
    encryptDir: string)

  /** The failures the core reports; each names the path it concerns. */
  datatype Error =
    | NotExist(path: string)
    | PermissionDenied(path: string)
    | NotRegular(path: string)
    | CommandFailed(path: string)
    | OpenFailed(path: string)
    | CreateFailed(path: string)
    | CopyFailed(path: string)
    | UploadFailed(path: string)
}
