/**
 * The part of the file system the directory walk can observe. A directory
 * lists its entries in the order the listing returns them; every entry is
 * classified as `lstat` classifies it, without following symbolic links.
 */
module FileSystem {

  datatype Entry =
    | Dir(name: string, entries: seq<Entry>)
    /** A regular file, or any other entry that is neither a directory nor a link. */
    | Reg(name: string)
    /** A symbolic link, whatever it points to. */
    | Link(name: string)
}
