/** The error numbers that the modelled functions return, negated. */
module Errno {
  const ENOENT := 2
  const EIO := 5
  const ENXIO := 6
  const ENOMEM := 12
  const EINVAL := 22
  const ERANGE := 34
  const EPROTO := 71
}
