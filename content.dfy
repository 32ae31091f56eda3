/** The fetched object (`S3Content`) and the archive header derived from it. */
module Content {

  newtype byte = b: int | 0 <= b < 256

  /** An instant as produced by the timestamp parser; its representation is irrelevant here. */
  datatype Time = Time(unixNano: int)

  /** One fetched object: its name relative to the traversal root, when it was
      last modified and its payload. */
  datatype S3Content = S3Content(name: string, lastMod: Time, data: seq<byte>)

  /** `os.ModePerm`, the permission bits 0777. */
  const ModePerm: bv32 := 0x1FF

  /** `filePerms`: `os.ModePerm & 0644`. */
  const FilePerms: bv32 := ModePerm & 0x1A4

  /** `tar.TypeReg`, the type flag of a regular file in the ustar format. */
  const TypeReg: char := '0'

  /** The fields of an archive entry header that the entry writer sets. */
  datatype Header = Header(
    name: string,
    size: int,
    mode: int,
    accessTime: Time,
    changeTime: Time,
    modTime: Time,
    typeflag: char,
    uid: int,
    gid: int)

  /** The header of the entry for `o`. The clock reading and the process's
      user and group ids are parameters, since reading them is a side effect. */
  function TarHeader(o: S3Content, now: Time, uid: int, gid: int): (h: Header)
    ensures h.name == o.name
    ensures h.size == |o.data|
    ensures h.mode == 420 // 0644 octal: rw-r--r--
    ensures h.modTime == o.lastMod && h.changeTime == o.lastMod
    ensures h.accessTime == now
    ensures h.typeflag == TypeReg
    ensures h.uid == uid && h.gid == gid
  {
    Header(o.name, |o.data|, FilePerms as int, now, o.lastMod, o.lastMod, TypeReg, uid, gid)
  }
}
