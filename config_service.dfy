/**
  The configuration service: typed setters that check their value before
  writing it to the configuration store, getters with defaults, and a generic
  get and set.
*/
module ConfigService {
  import opened Wrappers
  import opened PyValues

  /** ConfigError by cause. */
  datatype ConfigError = InvalidOutputDirectory | InvalidTempDirectory | InvalidLogLevel

  const OutputDirectoryKey: string := "general.output_directory"
  const TempDirectoryKey: string := "general.temp_directory"
  const LogLevelKey: string := "general.log_level"

  /** The log levels set_log_level accepts. */
  const LogLevels: seq<string> := ["DEBUG", "INFO", "WARNING", "ERROR"]

  /** The configuration store: a value per dotted key. */
  class ConfigStore {
    var entries: map<string, Value>

    /** The log level the store reports is one of the four levels. */
    predicate LevelValid()
      reads this
    {
      LogLevel().Str? && LogLevel().s in LogLevels
    }

    constructor ()
      ensures entries == map[]
      ensures LevelValid()
    {
      entries := map[];
    }

    /** get(key, default): the stored value, or the default when the key is unset. */
    function Get(key: string, default: Value): (v: Value)
      reads this
      ensures key in entries ==> v == entries[key]
      ensures key !in entries ==> v == default
    {
      if key in entries then entries[key] else default
    }

    /** set(key, value): writes the key and nothing else. */
    method Set(key: string, value: Value)
      modifies this
      ensures entries == old(entries)[key := value]
      ensures Get(key, Null) == value
    {
      entries := entries[key := value];
    }

    /** get_output_directory: "" when unset. */
    function OutputDirectory(): (v: Value)
      reads this
      ensures OutputDirectoryKey !in entries ==> v == Str("")
      ensures OutputDirectoryKey in entries ==> v == entries[OutputDirectoryKey]
    {
      Get(OutputDirectoryKey, Str(""))
    }

    /** get_temp_directory: "" when unset. */
    function TempDirectory(): (v: Value)
      reads this
      ensures TempDirectoryKey !in entries ==> v == Str("")
      ensures TempDirectoryKey in entries ==> v == entries[TempDirectoryKey]
    {
      Get(TempDirectoryKey, Str(""))
    }

    /** get_log_level: "INFO" when unset. */
    function LogLevel(): (v: Value)
      reads this
      ensures LogLevelKey !in entries ==> v == Str("INFO")
      ensures LogLevelKey in entries ==> v == entries[LogLevelKey]
    {
      Get(LogLevelKey, Str("INFO"))
    }

    /**
      set_output_directory: "" is written without a check; any other value
      must be a directory (`isDir` is os.path.isdir), or nothing is written.
    */
    method SetOutputDirectory(directory: string, isDir: string -> bool) returns (r: Outcome<ConfigError>)
      modifies this
      ensures r.Pass? <==> directory == "" || isDir(directory)
      ensures r.Fail? ==> r.error == InvalidOutputDirectory && entries == old(entries)
      ensures r.Pass? ==> entries == old(entries)[OutputDirectoryKey := Str(directory)]
      ensures r.Pass? ==> OutputDirectory() == Str(directory)
      ensures old(LevelValid()) ==> LevelValid()
    {
      if directory != "" && !isDir(directory) {
        return Fail(InvalidOutputDirectory);
      }
      entries := entries[OutputDirectoryKey := Str(directory)];
      r := Pass;
    }

    /** set_temp_directory: the same rule for the temporary directory. */
    method SetTempDirectory(directory: string, isDir: string -> bool) returns (r: Outcome<ConfigError>)
      modifies this
      ensures r.Pass? <==> directory == "" || isDir(directory)
      ensures r.Fail? ==> r.error == InvalidTempDirectory && entries == old(entries)
      ensures r.Pass? ==> entries == old(entries)[TempDirectoryKey := Str(directory)]
      ensures r.Pass? ==> TempDirectory() == Str(directory)
      ensures old(LevelValid()) ==> LevelValid()
    {
      if directory != "" && !isDir(directory) {
        return Fail(InvalidTempDirectory);
      }
      entries := entries[TempDirectoryKey := Str(directory)];
      r := Pass;
    }

    /** set_log_level: only DEBUG, INFO, WARNING and ERROR are written. */
    method SetLogLevel(level: string) returns (r: Outcome<ConfigError>)
      modifies this
      ensures r.Pass? <==> level in LogLevels
      ensures r.Fail? ==> r.error == InvalidLogLevel && entries == old(entries)
      ensures r.Pass? ==> entries == old(entries)[LogLevelKey := Str(level)]
      ensures r.Pass? ==> LogLevel() == Str(level)
      ensures r.Pass? ==> LevelValid()
      ensures old(LevelValid()) ==> LevelValid()
    {
      if level !in LogLevels {
        return Fail(InvalidLogLevel);
      }
      entries := entries[LogLevelKey := Str(level)];
      r := Pass;
    }
  }
}
