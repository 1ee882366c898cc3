/** The web app's format sniffing and its decision of how to decode an
    upload: the compound-file (legacy `.xls`) signature, the encryption
    markers in the compound file's stream directory, and the retry with the
    legacy engine. */
module Sniffer {
  import opened Wrappers
  import opened Tables

  newtype byte = x: int | 0 <= x < 256

  /** The eight leading bytes of every OLE compound file. */
  const OleSignature: seq<byte> := [0xD0, 0xCF, 0x11, 0xE0, 0xA1, 0xB1, 0x1A, 0xE1]

  /** `handle.read(n)`: at most the first `n` bytes. */
  function ReadPrefix(content: seq<byte>, n: nat): (r: seq<byte>)
    ensures |r| == if |content| < n then |content| else n
    ensures content[..|r|] == r
  {
    if |content| <= n then content else content[..n]
  }

  /** `_is_ole_file`: `content` is `None` when opening or reading raises
      `OSError`. */
  function IsOleFile(content: Option<seq<byte>>): (r: bool)
    ensures r <==> content.Some? && |content.value| >= 8 && content.value[..8] == OleSignature
  {
    match content
    case None => false
    case Some(bytes) => ReadPrefix(bytes, |OleSignature|) == OleSignature
  }

  /** A stream as olefile's `listdir()` lists it: its path components. */
  type StreamPath = seq<string>

  const EncryptedPackage := "EncryptedPackage"
  const DrmEncrypted := "DRMEncrypted"

  /** `any(marker in stream for stream in streams)`: some path has a
      component equal to `marker` (list membership, not a substring test). */
  function AnyStreamHas(streams: seq<StreamPath>, marker: string): (r: bool)
    ensures r <==> exists i, k :: 0 <= i < |streams| && 0 <= k < |streams[i]| && streams[i][k] == marker
  {
    if |streams| == 0 then false
    else
      var rest := AnyStreamHas(streams[1..], marker);
      assert rest <==> exists i, k :: 1 <= i < |streams| && 0 <= k < |streams[i]| && streams[i][k] == marker by {
        forall i, k | 1 <= i < |streams| && 0 <= k < |streams[i]|
          ensures streams[i][k] == streams[1..][i - 1][k]
        {
        }
      }
      marker in streams[0] || rest
  }

  /** `_is_encrypted_ole`. `oleAvailable` says whether olefile could be
      imported; `streams` is `None` when opening or listing the container raises. */
  function IsEncryptedOle(oleAvailable: bool, content: Option<seq<byte>>, streams: Option<seq<StreamPath>>): (r: bool)
    ensures r <==>
      && oleAvailable
      && IsOleFile(content)
      && streams.Some?
      && exists i, k :: 0 <= i < |streams.value| && 0 <= k < |streams.value[i]|
                        && (streams.value[i][k] == EncryptedPackage || streams.value[i][k] == DrmEncrypted)
  {
    if !oleAvailable || !IsOleFile(content) then false
    else
      match streams
      case None => false
      case Some(paths) => AnyStreamHas(paths, EncryptedPackage) || AnyStreamHas(paths, DrmEncrypted)
  }

  /** pandas' default engine, and the legacy xlrd engine. */
  datatype Engine = DefaultEngine | Xlrd

  /** One uploaded file as the web app sees it: its bytes, its stream
      directory, and what `pd.read_excel` returns for it with a given engine
      and a given number of skipped leading rows. */
  datatype Upload = Upload(
    content: Option<seq<byte>>,
    streams: Option<seq<StreamPath>>,
    decode: (Engine, nat) -> Result<Frame, string>)

  /** The engines `_read_excel` ran, in order, and what it returned or raised. */
  datatype ReadOutcome = ReadOutcome(attempts: seq<Engine>, result: Result<Frame, Failure>)

  /** `_read_excel(path, skiprows=skipRows)`, as a decision table over
      (encrypted, default decode, OLE signature, legacy decode). */
  function ReadExcel(file: Upload, skipRows: nat, oleAvailable: bool): (r: ReadOutcome)
    ensures IsEncryptedOle(oleAvailable, file.content, file.streams) ==>
              r.attempts == [] && r.result == Failure(ProtectedDocument)
    ensures !IsEncryptedOle(oleAvailable, file.content, file.streams) && file.decode(DefaultEngine, skipRows).Success? ==>
              r.attempts == [DefaultEngine] && r.result == Success(file.decode(DefaultEngine, skipRows).value)
    ensures !IsEncryptedOle(oleAvailable, file.content, file.streams) && file.decode(DefaultEngine, skipRows).Failure?
            && IsOleFile(file.content) ==>
              r.attempts == [DefaultEngine, Xlrd] && r.result == AsRead(file.decode(Xlrd, skipRows))
    ensures !IsEncryptedOle(oleAvailable, file.content, file.streams) && file.decode(DefaultEngine, skipRows).Failure?
            && !IsOleFile(file.content) ==>
              r.attempts == [DefaultEngine] && r.result == Failure(Unreadable(file.decode(DefaultEngine, skipRows).error))
  {
    if IsEncryptedOle(oleAvailable, file.content, file.streams) then
      ReadOutcome([], Failure(ProtectedDocument))
    else
      var modern := file.decode(DefaultEngine, skipRows);
      if modern.Success? then ReadOutcome([DefaultEngine], Success(modern.value))
      else if IsOleFile(file.content) then ReadOutcome([DefaultEngine, Xlrd], AsRead(file.decode(Xlrd, skipRows)))
      else ReadOutcome([DefaultEngine], Failure(Unreadable(modern.error)))
  }

  /** Every table `_read_excel` returns came from an engine it ran, the
      legacy engine runs only on a file with the OLE signature after the
      default engine failed, and a protected file is refused before any
      engine runs. */
  lemma ReadExcelTrace(file: Upload, skipRows: nat, oleAvailable: bool)
    ensures var r := ReadExcel(file, skipRows, oleAvailable);
      && (r.result.Success? ==> exists e :: e in r.attempts && file.decode(e, skipRows) == Success(r.result.value))
      && (Xlrd in r.attempts ==> IsOleFile(file.content) && file.decode(DefaultEngine, skipRows).Failure?)
      && (r.attempts == [] <==> r.result == Failure(ProtectedDocument))
  {
  }

  /** Without olefile nothing is reported as protected: every file goes to the
      default engine first. */
  lemma NoProtectionWithoutOlefile(file: Upload, skipRows: nat)
    ensures ReadExcel(file, skipRows, false).attempts != []
    ensures ReadExcel(file, skipRows, false).result != Failure(ProtectedDocument)
  {
  }

  /** A marker must be a whole path component: a stream whose name merely
      contains "EncryptedPackage" does not make the file protected. */
  lemma MarkerIsComponentNotSubstring(content: seq<byte>)
    requires |content| >= 8 && content[..8] == OleSignature
    ensures !IsEncryptedOle(true, Some(content), Some([["EncryptedPackage2"], ["Workbook"]]))
    ensures IsEncryptedOle(true, Some(content), Some([["Workbook"], ["\U{6}DataSpaces", "DRMEncrypted"]]))
  {
  }
}
