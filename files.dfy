/** The abstract filesystem.  A directory tree is seen as the sequence of files
    `os.walk` yields, in walk order; each file has its base name and the outcome
    of opening and reading it: what was read, or the exception's text. */
module Files {

  datatype Option<+T> = None | Some(value: T)

  datatype Read<+T> = Ok(value: T) | Failed(reason: string)

  datatype Entry<+T> = Entry(name: string, read: Read<T>)
}
