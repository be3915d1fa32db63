/**
 * The application settings: a key/value store filled from a configuration
 * file that evaluates to an array. The file's evaluation is an input
 * (`ConfigFile`); reading and executing it is not part of this model.
 */
module Configuration {
  import opened Wrappers
  import opened Php

  /** What `require $filePath` gives: no file, something that is not an array, or the settings array. */
  datatype ConfigFile = Missing | NotArray | Settings(values: map<string, Value>)

  function NotFound(filePath: string): Throwable
  {
    Exception("Configuration file not found: " + filePath)
  }

  function InvalidFormat(filePath: string): Throwable
  {
    Exception("Invalid configuration file format: " + filePath + ". Expected an associative array.")
  }

  /** `$settings[$key] ?? null` */
  function Setting(settings: map<string, Value>, key: string): (v: Value)
    ensures v != Null <==> key in settings && settings[key] != Null
    ensures v != Null ==> v == settings[key]
  {
    if key in settings then settings[key] else Null
  }

  /** A key stored with a null value reads exactly like a key that was never stored. */
  lemma StoredNullIsAbsent(settings: map<string, Value>, key: string)
    ensures Setting(settings[key := Null], key) == Setting(settings - {key}, key)
    ensures forall other | other != key ::
      Setting(settings[key := Null], other) == Setting(settings - {key}, other)
  {
    forall other | other != key
      ensures Setting(settings[key := Null], other) == Setting(settings - {key}, other)
    {
      assert (other in settings[key := Null]) == (other in settings - {key});
    }
  }

  class Config {
    var settings: map<string, Value>

    constructor()
      ensures settings == map[]
    {
      settings := map[];
    }

    /** `loadFromFile`: replaces every setting, or throws and keeps them all. */
    method LoadFromFile(filePath: string, file: ConfigFile) returns (o: Outcome<Throwable>)
      modifies this
      ensures file.Missing? ==> o == Fail(NotFound(filePath)) && settings == old(settings)
      ensures file.NotArray? ==> o == Fail(InvalidFormat(filePath)) && settings == old(settings)
      ensures file.Settings? ==> o == Pass && settings == file.values
      ensures file.Settings? ==> forall key | key !in file.values :: Get(key) == Null
    {
      match file {
        case Missing =>
          return Fail(NotFound(filePath));
        case NotArray =>
          return Fail(InvalidFormat(filePath));
        case Settings(values) =>
          settings := values;
          o := Pass;
      }
    }

    /** `get`: the stored value, or null for a key that is absent. */
    function Get(key: string): (v: Value)
      reads this
      ensures key in settings ==> v == settings[key]
      ensures key !in settings ==> v == Null
    {
      Setting(settings, key)
    }
  }
}
