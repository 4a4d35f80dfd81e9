/** Values shared by both crawlers: optional values, results, the errors the
    crawlers can raise, byte strings and path joining. */
module Base {

  datatype Option<+T> = None | Some(value: T)

  /** The errors the two crawlers raise, named after the Python exceptions. */
  datatype Error =
    | TransportError     // the fetch failed: connection refused, timeout, retries exhausted
    | ValueError         // int() of a string that is not an integer literal
    | IndexError         // list[-2] of a list with fewer than two elements
    | FileExistsError    // mkdir over a path that already exists (as a file, or at all)
    | IsADirectoryError  // writing bytes to a path that is a directory
    | ArgumentTypeError  // a command-line value rejected by a type checker

  datatype Result<+T> = Ok(value: T) | Err(error: Error)

  /** The outcome of an operation whose success carries no value. */
  datatype Outcome = Pass | Fail(error: Error)

  type Bytes = seq<bv8>

  /** `dir / name` for a pathlib path, and `dir + "/" + name` for a string path:
      the directory, one separator, and the name, which can be read back after it. */
  function Join(dir: string, name: string): (p: string)
    ensures |p| == |dir| + 1 + |name|
    ensures p[..|dir|] == dir && p[|dir|] == '/' && p[|dir| + 1..] == name
  {
    dir + "/" + name
  }

  /** Two names joined onto the same directory give the same path only if they are equal. */
  lemma JoinInjective(dir: string, a: string, b: string)
    ensures Join(dir, a) == Join(dir, b) ==> a == b
  {
    assert a == Join(dir, a)[|dir| + 1..];
    assert b == Join(dir, b)[|dir| + 1..];
  }

  /** `dir + "/" + name + ext`: a file inside `dir` whose name ends in the extension `ext`. */
  function FileIn(dir: string, name: string, ext: string): (p: string)
    ensures |p| == |dir| + 1 + |name| + |ext|
    ensures p[..|dir|] == dir && p[|dir|] == '/'
    ensures p[|p| - |ext|..] == ext
  {
    Join(dir, name + ext)
  }

  /** Two names given the same extension in the same directory give the same path only if they are equal. */
  lemma FileInInjective(dir: string, a: string, b: string, ext: string)
    ensures FileIn(dir, a, ext) == FileIn(dir, b, ext) ==> a == b
  {
    JoinInjective(dir, a + ext, b + ext);
    assert a == (a + ext)[..|a|];
    assert b == (b + ext)[..|b|];
  }
}
