/**
 * `convert_score_to_cache` of helpers/levels.py: read the chart as text, detect its format,
 * and write the converted level data into the folder's cache directory.
 */
module ScoreConversion {
  import opened Common
  import opened Files

  /** What `sonolus_converters.detect` reports: a format kind and, for level data, a variant. */
  datatype Detection = Detection(kind: string, variant: Option<string>)

  /** The converter library and the codecs the conversion calls. */
  datatype Converters = Converters(
    /** Reading the file in text mode (UTF-8, undecodable bytes dropped) and encoding the text back to UTF-8. */
    readText: Bytes -> Bytes,
    /** `detect(data)`; `None` when it finds nothing or raises. */
    detect: Bytes -> Option<Detection>,
    /** Loading a chart of the given kind and exporting it as compressed level data; `None` when either raises. */
    exportChart: (string, Bytes) -> Option<Bytes>,
    /** `gzip.compress`. */
    gzip: Bytes -> Bytes)

  /** The chart kinds that are loaded and exported as compressed level data. */
  const ExportedKinds: set<string> := {"sus", "mmw", "usc"}

  /** The name of the converted file inside a folder's cache directory. */
  const ConvertedName: EntryName := "converted_score"

  /**
   * The bytes the conversion writes for what `detect` found, or `None` where it returns False:
   * no detection, a kind other than sus, mmw, usc and lvd, or level data of another variant.
   */
  function ConvertedBytes(data: Bytes, det: Option<Detection>, conv: Converters): (r: Option<Bytes>)
    ensures det.None? ==> r.None?
    ensures det.Some? && det.value.kind in ExportedKinds ==> r == conv.exportChart(det.value.kind, data)
    ensures det == Some(Detection("lvd", Some("compress_pysekai"))) ==> r == Some(data)
    ensures det == Some(Detection("lvd", Some("pysekai"))) ==> r == Some(conv.gzip(data))
    ensures r.Some? ==>
      det.Some? && (det.value.kind in ExportedKinds ||
                    (det.value.kind == "lvd" && det.value.variant in {Some("compress_pysekai"), Some("pysekai")}))
  {
    match det
    case None => None
    case Some(Detection(kind, variant)) =>
      if kind in ExportedKinds then conv.exportChart(kind, data)
      else if kind == "lvd" then
        if variant == Some("compress_pysekai") then Some(data)
        else if variant == Some("pysekai") then Some(conv.gzip(data))
        else None
      else None
  }

  /** The converted bytes for the chart at `scorePath`, or `None` when reading, detecting or converting fails. */
  function ScoreBytes(disk: Disk, scorePath: Path, conv: Converters): (r: Option<Bytes>)
    ensures r.Some? ==> IsFile(disk, scorePath)
  {
    match ReadBytes(disk, scorePath)
    case Err(_) => None
    case Ok(raw) =>
      var data := conv.readText(raw);
      ConvertedBytes(data, conv.detect(data), conv)
  }

  /**
   * `convert_score_to_cache(score_path, out_dir / "converted_score")`. Creating the cache
   * directory happens outside the `try`, so its failure is raised (`Err`); every other failure
   * returns False, with at most the directory created.
   */
  function ConvertScoreToCache(disk: Disk, scorePath: Path, outDir: Path, conv: Converters): (r: Result<(bool, Disk), IoError>)
    ensures r.Ok? <==> !IsFile(disk, outDir)
    ensures r.Ok? && r.value.0 ==>
      var made := MakeDir(disk, outDir).value;
      ScoreBytes(made, scorePath, conv).Some? &&
      ReadBytes(r.value.1, JoinPath(outDir, ConvertedName)) == Ok(ScoreBytes(made, scorePath, conv).value)
    ensures r.Ok? && !r.value.0 ==> r.value.1 == MakeDir(disk, outDir).value
    ensures r.Ok? && r.value.0 ==> Exists(r.value.1, JoinPath(outDir, ConvertedName))
  {
    match MakeDir(disk, outDir)
    case Err(e) => Err(e)
    case Ok(made) =>
      match ScoreBytes(made, scorePath, conv)
      case None => Ok((false, made))
      case Some(out) =>
        match WriteFile(made, outDir, ConvertedName, out)
        case Err(_) => Ok((false, made))
        case Ok(written) => Ok((true, written))
  }

  /**
   * A file detected as compressed level data is written out as its text-mode reading
   * (`readText`), not as the bytes on disk; gzip bytes do not survive that decoding.
   */
  lemma CompressedLevelDataIsCopied(disk: Disk, scorePath: Path, outDir: Path, conv: Converters)
    requires IsFile(disk, scorePath) && IsDir(disk, outDir) && !IsDir(disk, JoinPath(outDir, ConvertedName))
    requires conv.detect(conv.readText(disk[scorePath].data)) == Some(Detection("lvd", Some("compress_pysekai")))
    ensures var r := ConvertScoreToCache(disk, scorePath, outDir, conv);
      r.Ok? && r.value.0 && ReadBytes(r.value.1, JoinPath(outDir, ConvertedName)) == Ok(conv.readText(disk[scorePath].data))
  {
  }

  /** A file nothing can be detected in is never converted, and the disk is left as it was. */
  lemma UndetectedIsRejected(disk: Disk, scorePath: Path, outDir: Path, conv: Converters)
    requires IsDir(disk, outDir)
    requires IsFile(disk, scorePath) ==> conv.detect(conv.readText(disk[scorePath].data)).None?
    ensures ConvertScoreToCache(disk, scorePath, outDir, conv) == Ok((false, disk))
  {
  }
}
