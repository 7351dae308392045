/**
 * Linux error numbers used by the driver. Every operation of the driver
 * returns 0 (or a count) on success and the negative of one of these on
 * failure, so results are plain ints throughout the model.
 */
module Errno {
  const EIO: int := 5
  const ENOMEM: int := 12
  const EAGAIN: int := 11
  const EBUSY: int := 16
  const EEXIST: int := 17
  const ENODEV: int := 19
  const EINVAL: int := 22
  const EDOM: int := 33
  const ERANGE: int := 34
  const EOPNOTSUPP: int := 95
}
