/**
 * The status byte a plugin entry point returns to the host: Go's
 * `type Error uint8` and its 25 named constants. Values are grouped by
 * value / 16 into eight categories; unlisted bytes are reserved.
 */
module ErrorCodes {

  import opened ForeignMemory
  import opened Optional

  datatype Code =
    | Success | UnknownError | UsageError
    | FileNotFound | AccessDenied | CwdNotFound | NameTooLong | NotDir | NotFile | SymLinkLoop
    | ReadFailure | WriteFailure | InputOutput | BrokenPipe
    | InvalidVariable | InvalidEnvVariable
    | OutOfMemory | NoSpaceLeft | NotEqual | SystemResources
    | CorruptInput
    | False | InvalidArgument
    | CommandCannotExecute | CommandNotFound

  /** The grouping the constant block documents with its comments. */
  datatype Category = Generic | FileSystem | IO | Variables | System | Encoding | Misc | Exec

  /**
   * The byte sent across the plugin boundary for each code. Success alone is
   * zero, every code is below 128, and value / 16 is the code's category.
   */
  function ToByte(c: Code): (b: byte)
    ensures b == 0 <==> c == Success
    ensures b < 128
    ensures b as int / 16 == CategoryNibble(CategoryOf(c))
  {
    match c
    case Success => 0
    case UnknownError => 1
    case UsageError => 2
    case FileNotFound => 16
    case AccessDenied => 17
    case CwdNotFound => 18
    case NameTooLong => 19
    case NotDir => 20
    case NotFile => 21
    case SymLinkLoop => 22
    case ReadFailure => 32
    case WriteFailure => 33
    case InputOutput => 34
    case BrokenPipe => 35
    case InvalidVariable => 48
    case InvalidEnvVariable => 49
    case OutOfMemory => 64
    case NoSpaceLeft => 65
    case NotEqual => 66
    case SystemResources => 67
    case CorruptInput => 80
    case False => 96
    case InvalidArgument => 97
    case CommandCannotExecute => 126
    case CommandNotFound => 127
  }

  /** The named code a status byte stands for; `None` for a reserved byte. */
  function FromByte(b: byte): (r: Option<Code>)
    ensures r.Some? ==> ToByte(r.value) == b
    ensures r.None? ==> forall c :: ToByte(c) != b
  {
    match b
    case 0 => Some(Success)
    case 1 => Some(UnknownError)
    case 2 => Some(UsageError)
    case 16 => Some(FileNotFound)
    case 17 => Some(AccessDenied)
    case 18 => Some(CwdNotFound)
    case 19 => Some(NameTooLong)
    case 20 => Some(NotDir)
    case 21 => Some(NotFile)
    case 22 => Some(SymLinkLoop)
    case 32 => Some(ReadFailure)
    case 33 => Some(WriteFailure)
    case 34 => Some(InputOutput)
    case 35 => Some(BrokenPipe)
    case 48 => Some(InvalidVariable)
    case 49 => Some(InvalidEnvVariable)
    case 64 => Some(OutOfMemory)
    case 65 => Some(NoSpaceLeft)
    case 66 => Some(NotEqual)
    case 67 => Some(SystemResources)
    case 80 => Some(CorruptInput)
    case 96 => Some(False)
    case 97 => Some(InvalidArgument)
    case 126 => Some(CommandCannotExecute)
    case 127 => Some(CommandNotFound)
    case _ =>
      assert b !in ListedBytes;
      NoCodeOutside(b);
      None
  }

  /** The bytes the constant table assigns. */
  const ListedBytes: set<byte> :=
    {0, 1, 2, 16, 17, 18, 19, 20, 21, 22, 32, 33, 34, 35, 48, 49, 64, 65, 66, 67, 80, 96, 97, 126, 127}

  /** No code is sent as a byte outside the table. */
  lemma NoCodeOutside(b: byte)
    requires b !in ListedBytes
    ensures forall c :: ToByte(c) != b
  {
    forall c
      ensures ToByte(c) in ListedBytes
    {
    }
  }

  /** Decoding the byte of a code gives the code back. */
  lemma FromToByte(c: Code)
    ensures FromByte(ToByte(c)) == Some(c)
  {
  }

  /** Distinct codes are sent as distinct bytes. */
  lemma ToByteInjective(c: Code, d: Code)
    requires ToByte(c) == ToByte(d)
    ensures c == d
  {
    FromToByte(c);
    FromToByte(d);
  }

  /** The category the constant block places each code in. */
  function CategoryOf(c: Code): Category {
    match c
    case Success | UnknownError | UsageError => Generic
    case FileNotFound | AccessDenied | CwdNotFound | NameTooLong | NotDir | NotFile | SymLinkLoop => FileSystem
    case ReadFailure | WriteFailure | InputOutput | BrokenPipe => IO
    case InvalidVariable | InvalidEnvVariable => Variables
    case OutOfMemory | NoSpaceLeft | NotEqual | SystemResources => System
    case CorruptInput => Encoding
    case False | InvalidArgument => Misc
    case CommandCannotExecute | CommandNotFound => Exec
  }

  /** The high nibble shared by all codes of a category. */
  function CategoryNibble(k: Category): nat {
    match k
    case Generic => 0
    case FileSystem => 1
    case IO => 2
    case Variables => 3
    case System => 4
    case Encoding => 5
    case Misc => 6
    case Exec => 7
  }

  /** A byte names a code exactly when it lies inside one of the documented ranges. */
  lemma ListedRanges(b: byte)
    ensures FromByte(b).Some? <==>
         0 <= b <= 2 || 16 <= b <= 22 || 32 <= b <= 35 || 48 <= b <= 49
         || 64 <= b <= 67 || b == 80 || 96 <= b <= 97 || 126 <= b <= 127
  {
  }
}
