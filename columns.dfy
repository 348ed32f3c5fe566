/** The weekly layout of a write-off worksheet: column 1 names the
    ingredient, and weekday `w` (1 = Monday ... 7 = Sunday) owns column `2w`
    for the due dates and column `2w + 1` for the check boxes. */
module Columns {

  datatype ColumnNumbers = ColumnNumbers(writeOffDatesColumnNumber: int, checkboxesColumnNumber: int)

  /** `calculateColumnNumberByWeekday`. */
  function CalculateColumnNumberByWeekday(weekday: int): (c: ColumnNumbers)
    ensures c.writeOffDatesColumnNumber % 2 == 0 && c.writeOffDatesColumnNumber / 2 == weekday
    ensures c.checkboxesColumnNumber == c.writeOffDatesColumnNumber + 1
    ensures 1 <= weekday <= 7 ==>
      2 <= c.writeOffDatesColumnNumber && c.checkboxesColumnNumber <= 15
  {
    ColumnNumbers(weekday * 2, weekday * 2 + 1)
  }

  /** What indexing a JavaScript array yields: the stored `null`, an
      element, or `undefined` past its ends. */
  datatype Lookup = Null | Undefined | Letter(c: char)

  /** The table `columnNumberToChar`: index 0 holds `null`, 1..15 'A'..'O'. */
  const ColumnNumberToCharTable: seq<Lookup> := [
    Null, Letter('A'), Letter('B'), Letter('C'), Letter('D'), Letter('E'),
    Letter('F'), Letter('G'), Letter('H'), Letter('I'), Letter('J'),
    Letter('K'), Letter('L'), Letter('M'), Letter('N'), Letter('O')
  ]

  /** The spreadsheet letter of column `n` (1 is 'A'), for the columns that
      have one-letter names. */
  function ColumnLetter(n: int): char
    requires 1 <= n <= 26
  {
    ('A' as int + n - 1) as char
  }

  /** The column number an A1 column letter names ('A' is 1). */
  function ColumnCharToNumber(c: char): int
  {
    c as int - 'A' as int + 1
  }

  /** `columnNumberToChar[n]`: a letter exactly for the columns 1..15, and
      that letter is the one naming column `n`; `null` at 0; `undefined`
      anywhere else. */
  function ColumnNumberToChar(n: int): (r: Lookup)
    ensures r.Letter? <==> 1 <= n <= 15
    ensures r.Letter? ==> r.c == ColumnLetter(n) && ColumnCharToNumber(r.c) == n
    ensures r == Null <==> n == 0
  {
    if 0 <= n < |ColumnNumberToCharTable| then ColumnNumberToCharTable[n] else Undefined
  }

  /** How a template literal renders a looked-up value. */
  function Interpolate(v: Lookup): string
  {
    match v
    case Null => "null"
    case Undefined => "undefined"
    case Letter(c) => [c]
  }

  /** The A1 range `getWriteOffsByWeekday` reads: from row 2 of the date
      column to the last row of the check box column. */
  function WriteOffsRange(worksheetName: string, weekday: int): (range: string)
    ensures 1 <= weekday <= 7 ==>
      range == worksheetName + "!" + [ColumnLetter(2 * weekday)] + "2:" + [ColumnLetter(2 * weekday + 1)]
  {
    var columns := CalculateColumnNumberByWeekday(weekday);
    var dateColumnChar := ColumnNumberToChar(columns.writeOffDatesColumnNumber);
    var checkboxColumnChar := ColumnNumberToChar(columns.checkboxesColumnNumber);
    worksheetName + "!" + Interpolate(dateColumnChar) + "2:" + Interpolate(checkboxColumnChar)
  }

  /** For every weekday both lookups of `getWriteOffsByWeekday` give a
      letter, never `null` or `undefined`, and the letters name back exactly
      the weekday's date and check box columns, which are adjacent. */
  lemma WeekdayColumnsHaveLetters(weekday: int)
    requires 1 <= weekday <= 7
    ensures var columns := CalculateColumnNumberByWeekday(weekday);
      var dateChar := ColumnNumberToChar(columns.writeOffDatesColumnNumber);
      var checkboxChar := ColumnNumberToChar(columns.checkboxesColumnNumber);
      && dateChar.Letter? && checkboxChar.Letter?
      && ColumnCharToNumber(dateChar.c) == 2 * weekday
      && ColumnCharToNumber(checkboxChar.c) == 2 * weekday + 1
      && checkboxChar.c as int == dateChar.c as int + 1
  {
  }
}
