/** The transfer side of the uploader (internal/s3/s3.go): which local file
    is uploaded for a discovered file, the object key, and the three transfer
    routines (upload to S3, a fake upload, a local copy). Stat, open, create,
    copy and the S3 call are oracles: parameters that say how each went. */
module S3 {
  import opened Types
  import opened Paths
  import opened Disk
  import Fs

  /** getRealSourceFileName: the file left after the enabled transforms, with
      encryption taking precedence over compression. */
  function RealSourceFileName(config: AppConfig, filename: string): (r: string)
    ensures !config.gzip && !config.encrypt ==> r == filename
    ensures config.gzip && !config.encrypt ==> r == Fs.GzipTarget(config, filename)
    ensures config.encrypt ==> r == Fs.EncryptTarget(config, filename)
  {
    var file := Base(filename);
    var gzipFile := Join(config.gzipDir, file + ".tgz");
    var encFile := Join(config.encryptDir, file + ".tgz");
    var afterGzip := if config.gzip then gzipFile else filename;
    if config.encrypt then encFile else afterGzip
  }

  /** With a transform enabled, only the last segment of the discovered path matters. */
  lemma RealSourceDependsOnBase(config: AppConfig, f1: string, f2: string)
    requires config.gzip || config.encrypt
    ensures Base(f1) == Base(f2) ==> RealSourceFileName(config, f1) == RealSourceFileName(config, f2)
  {
  }

  /** The object key: the configured prefix, a '/', and the file's last segment. */
  function ObjectKey(config: AppConfig, realFile: string): string {
    config.s3path + "/" + Base(realFile)
  }

  /** The uploaded object is named after the discovered file: its last
      segment, plus ".tgz" whenever a transform is enabled. */
  lemma ObjectKeyNamesOriginal(config: AppConfig, filename: string)
    ensures !config.gzip && !config.encrypt ==>
              ObjectKey(config, RealSourceFileName(config, filename)) == config.s3path + "/" + Base(filename)
    ensures config.gzip || config.encrypt ==>
              ObjectKey(config, RealSourceFileName(config, filename)) == config.s3path + "/" + (Base(filename) + ".tgz")
  {
    Fs.ArtifactBase(config, filename);
    var realFile := RealSourceFileName(config, filename);
    if config.gzip || config.encrypt {
      assert Base(realFile) == Base(filename) + ".tgz";
    }
  }

  /** How the steps of `copy` after its stat go. */
  datatype CopyOutcome = CopyOutcome(openOk: bool, createOk: bool, copyOk: bool, partial: nat)

  /** copy (internal/s3/s3.go:42-65). A source that is not a regular file is
      refused before it is opened and before the destination is created.
      Creating the destination truncates it, so when it is the source itself
      nothing is left to copy. A failed io.Copy reports the bytes it wrote. */
  method Copy(fs: FileSystem, src: string, dst: string, io: CopyOutcome) returns (n: int, err: Option<Error>)
    modifies fs
    ensures src !in old(fs.files) ==> n == 0 && err == Some(NotExist(src)) && fs.files == old(fs.files)
    ensures src in old(fs.files) && !old(fs.files)[src].regular ==>
              n == 0 && err == Some(NotRegular(src)) && fs.files == old(fs.files)
    ensures src in old(fs.files) && old(fs.files)[src].regular && !io.openOk ==>
              n == 0 && err == Some(OpenFailed(src)) && fs.files == old(fs.files)
    ensures src in old(fs.files) && old(fs.files)[src].regular && io.openOk && !io.createOk ==>
              n == 0 && err == Some(CreateFailed(dst)) && fs.files == old(fs.files)
    ensures src in old(fs.files) && old(fs.files)[src].regular && io.openOk && io.createOk ==>
              var available := if dst == src then 0 else old(fs.files)[src].size;
              var written := if io.copyOk || available <= io.partial then available else io.partial;
              && n == written
              && err == (if io.copyOk then None else Some(CopyFailed(src)))
              && fs.files == old(fs.files)[dst := FileInfo(written, true)]
  {
    if src !in fs.files {
      return 0, Some(NotExist(src));
    }
    var sourceFileStat := fs.files[src];
    if !sourceFileStat.regular {
      return 0, Some(NotRegular(src));
    }
    if !io.openOk {
      return 0, Some(OpenFailed(src));
    }
    if !io.createOk {
      return 0, Some(CreateFailed(dst));
    }
    fs.Record(dst, Some(0));
    var available := if src in fs.files then fs.files[src].size else 0;
    if io.copyOk {
      fs.Record(dst, Some(available));
      return available, None;
    }
    var written := if io.partial < available then io.partial else available;
    fs.Record(dst, Some(written));
    return written, Some(CopyFailed(src));
  }

  /** FakeUploadFile (internal/s3/s3.go:67-79): stats the file to upload and
      reports its size. */
  method FakeUploadFile(fs: FileSystem, config: AppConfig, filename: string) returns (n: int, err: Option<Error>)
    ensures var realFile := RealSourceFileName(config, filename);
            && (err == None <==> realFile in fs.files)
            && (err == None ==> n == fs.files[realFile].size)
            && (err != None ==> n == 0)
  {
    var realFile := RealSourceFileName(config, filename);
    if realFile !in fs.files {
      return 0, Some(NotExist(realFile));
    }
    var fi := fs.files[realFile];
    return fi.size, None;
  }

  /** CopyFile (internal/s3/s3.go:81-102): copies the file to upload into
      /var/tmp under its own last segment, and reports the size it had at
      the first stat. When the file to upload already is that path, the copy
      empties it and the reported size is still the old one. */
  method CopyFile(fs: FileSystem, config: AppConfig, filename: string, io: CopyOutcome) returns (n: int, err: Option<Error>)
    modifies fs
    ensures var realFile := RealSourceFileName(config, filename);
            var dstFile := Join("/var/tmp", Base(realFile));
            && (err == None <==> realFile in old(fs.files) && old(fs.files)[realFile].regular
                                 && io.openOk && io.createOk && io.copyOk)
            && (err == None ==> n == old(fs.files)[realFile].size
                                && fs.files == old(fs.files)[dstFile := FileInfo(if dstFile == realFile then 0 else n, true)])
            && (err != None ==> n == 0)
            && SameExcept(old(fs.files), fs.files, dstFile)
  {
    var realFile := RealSourceFileName(config, filename);
    if realFile !in fs.files {
      return 0, Some(NotExist(realFile));
    }
    var fi := fs.files[realFile];
    var dstFile := Join("/var/tmp", Base(realFile));
    ghost var before := fs.files;
    var copied;
    copied, err := Copy(fs, realFile, dstFile, io);
    assert SameExcept(before, fs.files, dstFile);
    if err != None {
      return 0, err;
    }
    assert fs.files == before[dstFile := FileInfo(if dstFile == realFile then 0 else fi.size, true)];
    return fi.size, None;
  }

  /** A file to upload that already lies in /var/tmp: CopyFile reports its
      five bytes as copied and leaves it empty. */
  method SelfCopyEmptiesFile() returns (n: int, err: Option<Error>, left: nat)
    ensures n == 5 && err == None && left == 0
  {
    var config := AppConfig(1024, "bucket", "prefix", "/var/tmp", false, false, "", "");
    var fs := new FileSystem(map["/var/tmp/a" := FileInfo(5, true)]);
    assert Base("/var/tmp/a") == "a" by {
      BaseOfJoin("/var/tmp", "a");
    }
    assert Join("/var/tmp", "a") == "/var/tmp/a";
    n, err := CopyFile(fs, config, "/var/tmp/a", CopyOutcome(true, true, true, 0));
    left := fs.files["/var/tmp/a"].size;
  }

  /** CopyFile as intended: a file already at its destination is not copied
      onto itself, so on success the destination holds a regular file of the
      reported size and the file to upload keeps its contents. */
  method CopyFileIntended(fs: FileSystem, config: AppConfig, filename: string, io: CopyOutcome)
    returns (n: int, err: Option<Error>)
    modifies fs
    ensures var realFile := RealSourceFileName(config, filename);
            var dstFile := Join("/var/tmp", Base(realFile));
            && (err == None <==> realFile in old(fs.files) && old(fs.files)[realFile].regular
                                 && (dstFile == realFile || (io.openOk && io.createOk && io.copyOk)))
            && (err == None ==> n == old(fs.files)[realFile].size
                                && dstFile in fs.files && fs.files[dstFile] == FileInfo(n, true)
                                && realFile in fs.files && fs.files[realFile] == old(fs.files)[realFile])
            && (err != None ==> n == 0)
            && SameExcept(old(fs.files), fs.files, dstFile)
  {
    var realFile := RealSourceFileName(config, filename);
    if realFile !in fs.files {
      return 0, Some(NotExist(realFile));
    }
    var fi := fs.files[realFile];
    var dstFile := Join("/var/tmp", Base(realFile));
    if dstFile == realFile {
      if !fi.regular {
        return 0, Some(NotRegular(realFile));
      }
      return fi.size, None;
    }
    ghost var before := fs.files;
    var copied;
    copied, err := Copy(fs, realFile, dstFile, io);
    assert SameExcept(before, fs.files, dstFile);
    if err != None {
      return 0, err;
    }
    assert fs.files == before[dstFile := FileInfo(fi.size, true)];
    return fi.size, None;
  }

  /** UploadFile (internal/s3/s3.go:126-154): stats and opens the file to
      upload, then puts it into the bucket under ObjectKey; `upload` says
      whether the S3 call for a (bucket, key) succeeds. */
  method UploadFile(fs: FileSystem, config: AppConfig, filename: string, openOk: bool,
                    upload: (string, string) -> bool)
    returns (n: int, err: Option<Error>)
    ensures var realFile := RealSourceFileName(config, filename);
            && (err == None <==> realFile in fs.files && openOk
                                 && upload(config.s3bucket, ObjectKey(config, realFile)))
            && (err == None ==> n == fs.files[realFile].size)
            && (err != None ==> n == 0)
  {
    var realFile := RealSourceFileName(config, filename);
    if realFile !in fs.files {
      return 0, Some(NotExist(realFile));
    }
    var fi := fs.files[realFile];
    if !openOk {
      return 0, Some(OpenFailed(realFile));
    }
    var key := config.s3path + "/" + Base(realFile);
    if !upload(config.s3bucket, key) {
      return 0, Some(UploadFailed(realFile));
    }
    return fi.size, None;
  }
}
