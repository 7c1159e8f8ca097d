/** How gorm's `Model(...).Where("id = ?", id).Updates(record)` writes a row:
    with a struct argument it writes only the fields whose value is not the
    Go zero value ("" for strings, 0 for integers, nil for pointers) and
    leaves the other columns as they were. */
module Orm {
  import opened Wrappers

  function WriteStr(upd: string, cur: string): (r: string)
    ensures upd != "" ==> r == upd
    ensures upd == "" ==> r == cur
  {
    if upd == "" then cur else upd
  }

  function WriteInt(upd: int, cur: int): (r: int)
    ensures upd != 0 ==> r == upd
    ensures upd == 0 ==> r == cur
  {
    if upd == 0 then cur else upd
  }

  function WritePtr(upd: Option<int>, cur: Option<int>): (r: Option<int>)
    ensures upd.Some? ==> r == upd
    ensures upd.None? ==> r == cur
  {
    if upd.None? then cur else upd
  }
}
