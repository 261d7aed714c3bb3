/** Range arithmetic of utils/range.rs. */
module Ranges {
  import opened Base

  datatype RangeSpec = Offset(start: u64, end: u64) | Suffix(length: u64)

  /** Number of bytes of `start..=end`, an error instead of an overflow. */
  function RangeLength(start: u64, end: int): Result<u64>
  {
    if end < start || end - start + 1 > U64_MAX then Err(InvalidRange) else Ok(end - start + 1)
  }

  function Endpoints(spec: RangeSpec, total: Option<u64>): Result<(u64, u64)>
  {
    match spec
    case Offset(start, end) => Ok((start, end))
    case Suffix(length) =>
      match total
      case Some(t) => if t == 0 then Err(InvalidRange) else Ok((SatSub(t, length), t - 1))
      case None => Err(InvalidRange)
  }

  function ResolveRange(start: u64, end: u64, total: Option<u64>): Result<(u64, u64)>
  {
    match total
    case Some(t) =>
      if t == 0 || start > t - 1 then Err(InvalidRange) else Ok((start, Min(end, t - 1)))
    case None => if end == OPEN_ENDED then Err(InvalidRange) else Ok((start, end))
  }

  function ClampEnd(start: u64, end: u64, upstreamLength: u64): u64
  {
    if upstreamLength == 0 then end else Min(end, SatAdd(start, upstreamLength - 1))
  }
}
