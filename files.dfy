/**
 * The working directory as the pipeline sees it: file names mapped to their
 * text. Opening a file in mode "w" truncates it; `write` appends to it.
 * Whether the operating system lets a name be opened (its directory exists,
 * it holds no NUL character, it is not too long, ...) is part of the state:
 * `refused` maps each name it refuses to the text of the error it raises.
 */
module Files {
  import opened Wrappers

  class FileSystem {
    var files: map<string, string>
    var refused: map<string, string>

    constructor (refused: map<string, string>)
      ensures files == map[] && this.refused == refused
    {
      files := map[];
      this.refused := refused;
    }

    /**
     * `open(name, "w")`: creates the file or empties an existing one, or
     * raises, leaving every file as it was.
     */
    method OpenForWrite(name: string) returns (error: Option<string>)
      modifies this
      ensures refused == old(refused)
      ensures name in refused ==> error == Some(refused[name]) && files == old(files)
      ensures name !in refused ==> error == None && files == old(files)[name := []]
    {
      if name in refused {
        error := Some(refused[name]);
      } else {
        error := None;
        files := files[name := []];
      }
    }

    /** `f.write(text)` on a file opened for writing: appends, touches no other file. */
    method Write(name: string, text: string)
      requires name in files
      modifies this
      ensures refused == old(refused)
      ensures files == old(files)[name := old(files)[name] + text]
    {
      files := files[name := files[name] + text];
    }
  }
}
