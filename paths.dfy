/** `pathlib.Path` values reduced to a directory and a final component. */
module Paths {

  /** `parent / name` */
  datatype Path = Path(parent: string, name: string)

  /** `str(path)` */
  function PathText(p: Path): string {
    p.parent + "/" + p.name
  }
}
