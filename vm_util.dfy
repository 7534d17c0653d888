/**
 * The VM's status codes (vm/Util.h) and the outcomes the C code reaches
 * without returning one.
 */
module VmStatus {

  /**
   * GLC_OK, GLC_ERROR, GLC_INVALID_OP, GLC_OUT_OF_BUFFER and
   * GLC_STACK_OVERFLOW (0, -1, -2, -3, -4); GLC_KEY_MISS, which the map
   * returns but vm/Util.h does not define; and four outcomes that are not
   * codes: a failed C `assert` (ASSERT_FAILED), undefined behaviour such
   * as a division by zero, a member index past the struct or a union read
   * through a member the value does not hold (UNDEFINED),
   * the map's rebuild recursion, which never succeeds and ends in GLC_OOM
   * or in undefined behaviour (DIVERGES), and the step
   * budget of the model running out (OUT_OF_FUEL).
   */
  datatype Status =
    | OK | ERROR | INVALID_OP | OUT_OF_BUFFER | STACK_OVERFLOW | KEY_MISS
    | ASSERT_FAILED | UNDEFINED | DIVERGES | OUT_OF_FUEL

  /** The integer a status is returned as, for those vm/Util.h defines. */
  function Code(s: Status): (r: int)
    requires s in {OK, ERROR, INVALID_OP, OUT_OF_BUFFER, STACK_OVERFLOW}
    ensures -4 <= r <= 0
    ensures r == 0 <==> s == OK
  {
    match s
    case OK => 0
    case ERROR => -1
    case INVALID_OP => -2
    case OUT_OF_BUFFER => -3
    case STACK_OVERFLOW => -4
  }
}
