/**
 * The legacy record of hy_tracked_textfiles.py: a `HyTextFile` holding the six basic
 * statistics, and the `HyFileInventory` list that creates and tracks them.
 */
module HyTracked {
  import opened Outcomes
  import opened Strings

  datatype HyBasicRecord = HyBasicRecord(
    numberOfLines: real, numberOfWords: real, numberOfCharacters: real, numberOfSpaces: real,
    averageWordsPerLine: real, averageCharactersPerWord: real, numberOfCharactersAndSpaces: real)

  /** The checks of `HyTextFile.__init__`: existence first, then the ".txt" extension. */
  function HyAdmission(filepath: string, fileExists: bool): (r: Outcome<Failure>)
    ensures r == Done <==> fileExists && EndsWith(Lower(filepath), ".txt")
    ensures !fileExists ==> r == Raised(FileNotFound)
    ensures fileExists && !EndsWith(Lower(filepath), ".txt") ==> r == Raised(ExtensionMismatch)
  {
    if !fileExists then Raised(FileNotFound)
    else if !EndsWith(Lower(filepath), ".txt") then Raised(ExtensionMismatch)
    else Done
  }

  class HyTextFile {
    const path: string
    const shortname: string
    var basic: Option<HyBasicRecord>

    constructor (filepath: string)
      ensures path == filepath && shortname == Basename(filepath) && basic.None?
    {
      path := filepath;
      shortname := Basename(filepath);
      basic := None;
    }

    /** `HyTextFile(filepath)`: the record, or the exception its checks raise. */
    static method Open(filepath: string, fileExists: bool) returns (r: Result<HyTextFile, Failure>)
      ensures HyAdmission(filepath, fileExists).Raised? ==> r == Err(HyAdmission(filepath, fileExists).failure)
      ensures HyAdmission(filepath, fileExists) == Done ==>
                r.Ok? && fresh(r.value) && r.value.path == filepath
                && r.value.shortname == Basename(filepath) && r.value.basic.None?
    {
      var admitted := HyAdmission(filepath, fileExists);
      if admitted.Raised? {
        return Err(admitted.failure);
      }
      var f := new HyTextFile(filepath);
      r := Ok(f);
    }

    /** Stores the six-element tuple; any other arity is refused and nothing changes. */
    method AppendBasicStatistics(stats: seq<real>) returns (r: Outcome<Failure>)
      modifies this
      ensures r == (if |stats| == 6 then Done else Raised(MalformedStatistics))
      ensures |stats| == 6 ==>
                basic == Some(HyBasicRecord(stats[0], stats[1], stats[2], stats[3], stats[4], stats[5], stats[2] + stats[3]))
      ensures |stats| != 6 ==> basic == old(basic)
    {
      if |stats| != 6 {
        return Raised(MalformedStatistics);
      }
      var numberOfCharacters, numberOfSpaces := stats[2], stats[3];
      basic := Some(HyBasicRecord(stats[0], stats[1], numberOfCharacters, numberOfSpaces, stats[4], stats[5],
                                  numberOfCharacters + numberOfSpaces));
      r := Done;
    }
  }

  class HyFileInventory {
    var files: seq<HyTextFile>

    constructor ()
      ensures files == []
    {
      files := [];
    }

    /** Creates the record for `filepath` and appends it; a refused path leaves the list unchanged. */
    method AddFile(filepath: string, fileExists: bool) returns (r: Result<HyTextFile, Failure>)
      modifies this
      ensures HyAdmission(filepath, fileExists).Raised? ==>
                r == Err(HyAdmission(filepath, fileExists).failure) && files == old(files)
      ensures HyAdmission(filepath, fileExists) == Done ==>
                r.Ok? && fresh(r.value) && r.value.path == filepath
                && r.value.shortname == Basename(filepath) && r.value.basic.None?
                && files == old(files) + [r.value]
    {
      r := HyTextFile.Open(filepath, fileExists);
      if r.Ok? {
        files := files + [r.value];
      }
    }
  }
}
