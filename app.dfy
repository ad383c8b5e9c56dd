/** The controller of main.py: the settings store, the start-up value of
    the engine path, the checks made before a run, and the status and
    button sequence of a run. Widgets, dialogs, message boxes and the worker
    thread are not modelled; what the user picks arrives as parameters. */
module App {
  import opened Results
  import Ocr

  /** The only executable name a run accepts. */
  const ExeName: string := "tesseract.exe"
  const PathsSection: string := "PATHS"
  const ExePathKey: string := "exe_path"
  const ConvertingStatus: string := "Converting..."
  const DoneStatus: string := "Done!"

  /** Section name to (key to value). */
  type Settings = map<string, map<string, string>>

  // ---------------------------------------------------------------------
  // File names

  /** Windows path separators. */
  predicate IsSep(c: char)
  {
    c == '/' || c == '\\'
  }

  /** The part of `p` after its last separator. */
  function TailAfterSep(p: string): (r: string)
    ensures |r| <= |p| && r == p[|p| - |r|..]
    ensures forall i :: 0 <= i < |r| ==> !IsSep(r[i])
    ensures |r| < |p| ==> IsSep(p[|p| - |r| - 1])
  {
    if p == [] || IsSep(p[|p| - 1]) then [] else TailAfterSep(p[..|p| - 1]) + [p[|p| - 1]]
  }

  /** A drive prefix such as `C:`. */
  predicate HasDrive(p: string)
  {
    |p| >= 2 && p[1] == ':'
  }

  /** `os.path.basename` on Windows: the longest suffix of `p` that holds no
      separator and does not reach into a drive prefix. */
  function Basename(p: string): (r: string)
    ensures |r| <= |p| && r == p[|p| - |r|..]
    ensures forall i :: 0 <= i < |r| ==> !IsSep(r[i])
    ensures HasDrive(p) ==> |r| <= |p| - 2
    ensures |r| < |p| - (if HasDrive(p) then 2 else 0) ==> IsSep(p[|p| - |r| - 1])
  {
    var name := if HasDrive(p) then p[2..] else p;
    assert name == p[|p| - |name|..];
    TailAfterSep(name)
  }

  // ---------------------------------------------------------------------
  // Checks before a run

  datatype Decision =
    | InvalidExe    // "Invalid EXE Selected"
    | MissingPath   // "File Not Selected"
    | Start         // the conversion is started

  /** The checks of `start_conversion`, in their order. */
  function Validate(exe: string, src: string, out: string): (d: Decision)
    ensures d == Start <==> Basename(exe) == ExeName && src != "" && out != ""
    ensures d == MissingPath <==> Basename(exe) == ExeName && (src == "" || out == "")
    ensures d == InvalidExe <==> Basename(exe) != ExeName
  {
    if Basename(exe) != ExeName then InvalidExe
    else if src == "" || exe == "" || out == "" then MissingPath
    else Start
  }

  /** A path whose file name is the engine's is never empty, so the second
      check's test of the engine path never decides anything. */
  lemma ExeTestRedundant(exe: string, src: string, out: string)
    requires Basename(exe) == ExeName
    ensures exe != ""
    ensures Validate(exe, src, out) == (if src == "" || out == "" then MissingPath else Start)
  {
  }

  // ---------------------------------------------------------------------
  // The settings map

  /** `settings[section][key] = value`, creating the section when missing. */
  function Updated(settings: Settings, section: string, key: string, value: string): (r: Settings)
    ensures r.Keys == settings.Keys + {section}
    ensures key in r[section] && r[section][key] == value
    ensures section !in settings ==> r[section] == map[key := value]
    ensures section in settings ==> r[section].Keys == settings[section].Keys + {key}
    ensures section in settings ==>
              forall k :: k in settings[section] && k != key ==> r[section][k] == settings[section][k]
    ensures forall s :: s in settings && s != section ==> r[s] == settings[s]
  {
    if section in settings then settings[section := settings[section][key := value]]
    else settings[section := map[key := value]]
  }

  /** Writing the same key twice has the effect of writing it once. */
  lemma UpdateIdempotent(settings: Settings, section: string, key: string, value: string)
    ensures Updated(Updated(settings, section, key, value), section, key, value) == Updated(settings, section, key, value)
  {
    var once := Updated(settings, section, key, value);
    var twice := Updated(once, section, key, value);
    assert twice[section] == once[section];
  }

  /** The engine path at start-up: `settings['PATHS']['exe_path']`, or the
      empty string when the section or the key is missing. */
  function InitialExePath(settings: Settings): (r: string)
    ensures PathsSection in settings && ExePathKey in settings[PathsSection] ==>
              r == settings[PathsSection][ExePathKey]
    ensures !(PathsSection in settings && ExePathKey in settings[PathsSection]) ==> r == ""
  {
    if PathsSection in settings && ExePathKey in settings[PathsSection] then
      settings[PathsSection][ExePathKey]
    else ""
  }

  /** The start-up rule applied to the map updated by the engine-path
      callback gives back the stored path. */
  lemma StoredExePathIsRestored(settings: Settings, path: string)
    ensures InitialExePath(Updated(settings, PathsSection, ExePathKey, path)) == path
  {
  }

  /** The nested loops of `read_settings`: one entry per section of the
      parsed configuration, each holding that section's pairs. */
  method LoadSections(config: Settings) returns (settings: Settings)
    ensures settings.Keys == config.Keys
    ensures forall s :: s in config ==> settings[s] == config[s]
  {
    settings := map[];
    var pending := config.Keys;
    while pending != {}
      invariant pending <= config.Keys
      invariant settings.Keys == config.Keys - pending
      invariant forall s :: s in settings ==> settings[s] == config[s]
      decreases pending
    {
      var section :| section in pending;
      settings := settings[section := map[]];
      var keys := config[section].Keys;
      while keys != {}
        invariant keys <= config[section].Keys
        invariant section in settings
        invariant settings.Keys == config.Keys - pending + {section}
        invariant settings[section].Keys == config[section].Keys - keys
        invariant forall k :: k in settings[section] ==> settings[section][k] == config[section][k]
        invariant forall s :: s in settings && s != section ==> settings[s] == config[s]
        decreases keys
      {
        var key :| key in keys;
        settings := settings[section := settings[section][key := config[section][key]]];
        keys := keys - {key};
      }
      pending := pending - {section};
    }
  }

  // ---------------------------------------------------------------------
  // A run

  /** What the catch-all handler of `convert_file` receives, if anything. */
  function RunFailure(exe: string, src: string, prep: bool, out: string, ext: Ocr.Externals): (r: Option<Ocr.Error>)
    ensures r.None? <==> Ocr.Convert(exe, src, prep, out, ext).Ok?
    ensures r.Some? ==> !r.value.NotOpened?
  {
    match Ocr.Convert(exe, src, prep, out, ext)
    case Ok(_) => None
    case Err(e) => Some(e)
  }

  /** The body of the `try` in `convert_file`: a fresh `PDF2Text` for the
      engine path opens the source and saves to the output; the first
      failure raised ends it. */
  method RunPipeline(exe: string, src: string, prep: bool, out: string, ext: Ocr.Externals)
    returns (written: Result<string, Ocr.Error>)
    ensures written == Ocr.Convert(exe, src, prep, out, ext)
  {
    var p2t := new Ocr.Pdf2Text(exe);
    var outcome := p2t.Open(src, prep, ext);
    match outcome {
      case Some(e) =>
        written := Err(e);
      case None =>
        written := p2t.Save(out, ext);
    }
  }

  datatype ButtonState = Normal | Disabled

  /** The three paths the user picks. */
  datatype PathField = ExeField | SrcField | OutField

  class Program {
    var settingsFile: string
    var settings: Settings
    /** The settings maps written to the settings file, oldest first. */
    ghost var dumps: seq<Settings>
    var exe: string
    var src: string
    var out: string
    /** The pre-process check box: 0 unticked, 1 ticked. */
    var prep: int
    var status: string
    var button: ButtonState
    /** Every value the status text was set to, and every state the convert
        button was put in, oldest first. */
    ghost var statusLog: seq<string>
    ghost var buttonLog: seq<ButtonState>

    /** Read the settings, set up the variables, show an enabled button. */
    constructor (settingsFile: string, config: Settings)
      ensures this.settingsFile == settingsFile
      ensures settings == config && dumps == []
      ensures exe == InitialExePath(config) && src == "" && out == "" && prep == 0
      ensures status == "" && button == Normal
      ensures statusLog == [] && buttonLog == []
    {
      this.settingsFile := settingsFile;
      dumps := [];
      button := Normal;
      statusLog := [];
      buttonLog := [];
      new;
      ReadSettings(config);
      SetupVariables();
    }

    /** Replace the settings by those of the parsed configuration. */
    method ReadSettings(config: Settings)
      modifies this
      ensures settings == config
      ensures settingsFile == old(settingsFile) && dumps == old(dumps)
      ensures exe == old(exe) && src == old(src) && out == old(out) && prep == old(prep)
      ensures status == old(status) && button == old(button)
      ensures statusLog == old(statusLog) && buttonLog == old(buttonLog)
    {
      var loaded := LoadSections(config);
      settings := loaded;
    }

    /** Write one key in place, creating its section when missing, then
        write the whole map to the settings file. */
    method UpdateSettings(section: string, key: string, value: string)
      modifies this
      ensures settings == Updated(old(settings), section, key, value)
      ensures dumps == old(dumps) + [settings]
      ensures settingsFile == old(settingsFile)
      ensures exe == old(exe) && src == old(src) && out == old(out) && prep == old(prep)
      ensures status == old(status) && button == old(button)
      ensures statusLog == old(statusLog) && buttonLog == old(buttonLog)
    {
      if section in settings {
        settings := settings[section := settings[section][key := value]];
      } else {
        settings := settings[section := map[key := value]];
      }
      dumps := dumps + [settings];
    }

    /** The engine path from the settings, and empty file paths, check box
        and status. */
    method SetupVariables()
      modifies this
      ensures exe == InitialExePath(settings)
      ensures src == "" && out == "" && prep == 0 && status == ""
      ensures settings == old(settings) && settingsFile == old(settingsFile) && dumps == old(dumps)
      ensures button == old(button)
      ensures statusLog == old(statusLog) && buttonLog == old(buttonLog)
    {
      exe := InitialExePath(settings);
      src, out, prep, status := "", "", 0, "";
    }

    /** A path picked in a file dialog; an empty answer (the dialog was
        cancelled) changes nothing. Setting the engine path fires its
        write-through callback, which stores it under PATHS/exe_path. */
    method SelectFile(field: PathField, path: string)
      modifies this
      ensures path == "" ==> exe == old(exe) && src == old(src) && out == old(out)
      ensures path == "" ==> settings == old(settings) && dumps == old(dumps)
      ensures path != "" && field == ExeField ==>
                exe == path && src == old(src) && out == old(out) &&
                settings == Updated(old(settings), PathsSection, ExePathKey, path) &&
                dumps == old(dumps) + [settings]
      ensures path != "" && field == SrcField ==>
                src == path && exe == old(exe) && out == old(out) &&
                settings == old(settings) && dumps == old(dumps)
      ensures path != "" && field == OutField ==>
                out == path && exe == old(exe) && src == old(src) &&
                settings == old(settings) && dumps == old(dumps)
      ensures settingsFile == old(settingsFile) && prep == old(prep)
      ensures status == old(status) && button == old(button)
      ensures statusLog == old(statusLog) && buttonLog == old(buttonLog)
    {
      if path != "" {
        match field {
          case ExeField =>
            exe := path;
            UpdateSettings(PathsSection, ExePathKey, exe);
          case SrcField =>
            src := path;
          case OutField =>
            out := path;
        }
      }
    }

    /** The run: disable the button, show "Converting...", open and save;
        show "Done!" only when both returned; enable the button on every
        path out. A failure is handed to the error display and leaves the
        status at "Converting...". */
    method ConvertFile(ext: Ocr.Externals) returns (failure: Option<Ocr.Error>)
      modifies this
      ensures failure == RunFailure(exe, src, prep != 0, out, ext)
      ensures button == Normal
      ensures status == if failure.None? then DoneStatus else ConvertingStatus
      ensures statusLog == old(statusLog) + [ConvertingStatus] + (if failure.None? then [DoneStatus] else [])
      ensures buttonLog == old(buttonLog) + [Disabled, Normal]
      ensures exe == old(exe) && src == old(src) && out == old(out) && prep == old(prep)
      ensures settings == old(settings) && settingsFile == old(settingsFile) && dumps == old(dumps)
    {
      button := Disabled;
      buttonLog := buttonLog + [Disabled];
      status := ConvertingStatus;
      statusLog := statusLog + [ConvertingStatus];
      var written := RunPipeline(exe, src, prep != 0, out, ext);
      if written.Ok? {
        status := DoneStatus;
        statusLog := statusLog + [DoneStatus];
        failure := None;
      } else {
        failure := Some(written.error);
      }
      button := Normal;
      buttonLog := buttonLog + [Normal];
    }

    /** Check the paths; warn and do nothing else when a check fails,
        otherwise run the conversion. */
    method StartConversion(ext: Ocr.Externals) returns (d: Decision, failure: Option<Ocr.Error>)
      modifies this
      ensures d == Validate(old(exe), old(src), old(out))
      ensures d != Start ==>
                failure == None && status == old(status) && button == old(button) &&
                statusLog == old(statusLog) && buttonLog == old(buttonLog)
      ensures d == Start ==>
                failure == RunFailure(exe, src, prep != 0, out, ext) && button == Normal &&
                status == (if failure.None? then DoneStatus else ConvertingStatus) &&
                statusLog == old(statusLog) + [ConvertingStatus] + (if failure.None? then [DoneStatus] else []) &&
                buttonLog == old(buttonLog) + [Disabled, Normal]
      ensures exe == old(exe) && src == old(src) && out == old(out) && prep == old(prep)
      ensures settings == old(settings) && settingsFile == old(settingsFile) && dumps == old(dumps)
    {
      d := Validate(exe, src, out);
      failure := None;
      if d == Start {
        failure := ConvertFile(ext);
      }
    }
  }
}
