/** The greeting and calculator endpoints of the small demo API. */
module DemoApi {
  import opened Text

  /** The operation names of `calculate`, in the order they are listed. */
  const Operations: seq<string> := ["add", "subtract", "multiply", "divide"]
  const DefaultOperation: string := "add"
  const UnknownOperation: string := "Неизвестная операция"
  const DivisionByZero: string := "Ошибка: деление на ноль"
  const DefaultGuest: string := "Гость"
  const AskName: string := "👋 Привет! Как тебя зовут?"

  /** The `result` field: an integer, the exact quotient of a true
      division, or the division-by-zero message. */
  datatype Value = Int(i: int) | Quotient(q: real) | Message(s: string)

  datatype CalcReply =
    | Computed(operation: string, a: int, b: int, result: Value)
    | Unknown(error: string, availableOperations: seq<string>)

  /** The `operation` query parameter, `"add"` when it is absent. */
  function OperationOrDefault(operation: Option<string>): (op: string)
    ensures operation.None? ==> op == DefaultOperation
    ensures operation.Some? ==> op == operation.value
  {
    if operation.Some? then operation.value else DefaultOperation
  }

  /** The lambda `calculate` looks up for a listed operation. */
  function Apply(op: string, a: int, b: int): Value
    requires op in Operations
  {
    if op == "add" then Int(a + b)
    else if op == "subtract" then Int(a - b)
    else if op == "multiply" then Int(a * b)
    else if b != 0 then Quotient(a as real / b as real)
    else Message(DivisionByZero)
  }

  /** `calculate`: an unlisted operation is refused with the list of the
      available ones; any other is applied and the reply echoes the
      operation and both operands. Division by zero answers a text. */
  function Calculate(a: int, b: int, operation: Option<string>): (r: CalcReply)
    ensures r.Unknown? <==> OperationOrDefault(operation) !in Operations
    ensures r.Unknown? ==> r.error == UnknownOperation && r.availableOperations == Operations
    ensures r.Computed? ==> r.operation == OperationOrDefault(operation) && r.a == a && r.b == b
    ensures r.Computed? && r.operation == "divide" ==> (r.result.Message? <==> b == 0)
    ensures r.Computed? && r.operation == "divide" && b != 0 ==> r.result.Quotient? && r.result.q * (b as real) == a as real
    ensures r.Computed? && r.operation == "add" ==> r.result == Int(a + b)
    ensures r.Computed? && r.operation == "subtract" ==> r.result == Int(a - b)
    ensures r.Computed? && r.operation == "multiply" ==> r.result == Int(a * b)
  {
    var op := OperationOrDefault(operation);
    if op !in Operations then Unknown(UnknownOperation, Operations)
    else Computed(op, a, b, Apply(op, a, b))
  }

  /** Subtraction undoes addition and division undoes multiplication by a
      non-zero number. */
  lemma CalculateInverses(a: int, b: int)
    ensures Calculate(Calculate(a, b, Some("add")).result.i, b, Some("subtract")).result == Int(a)
    ensures b != 0 ==>
      Calculate(Calculate(a, b, Some("multiply")).result.i, b, Some("divide")).result == Quotient(a as real)
  {
    if b != 0 {
      var p := Calculate(a, b, Some("multiply")).result.i;
      assert p == a * b;
      assert (p as real) / (b as real) == a as real by {
        assert (p as real) == (a as real) * (b as real);
      }
    }
  }

  /** Without an operation the sum is computed. */
  lemma DefaultIsAddition(a: int, b: int)
    ensures Calculate(a, b, None) == Computed("add", a, b, Int(a + b))
  {
  }

  /** `s` occurs in `prefix + s + suffix`. */
  lemma ContainsInfix(prefix: string, s: string, suffix: string)
    ensures Contains(prefix + s + suffix, s)
  {
    assert OccursAt(prefix + s + suffix, s, |prefix|) by {
      assert (prefix + s + suffix)[|prefix|..|prefix| + |s|] == s;
    }
  }

  /** `GET /greet`: a non-empty name is greeted by name, otherwise the page
      asks for one; the input keeps the name or `""`. */
  function GreetGet(name: Option<string>): (r: (string, string))
    ensures Truthy(name) ==> Contains(r.0, name.value) && r.0 != AskName
    ensures !Truthy(name) ==> r.0 == AskName
    ensures r.1 == if Truthy(name) then name.value else ""
  {
    if Truthy(name) then
      var message := "👋 Привет, " + name.value + "! Рад видеть тебя!";
      ContainsInfix("👋 Привет, ", name.value, "! Рад видеть тебя!");
      assert message[|"👋 Привет"|] != AskName[|"👋 Привет"|];
      (message, name.value)
    else
      (AskName, "")
  }

  /** `POST /greet`: the form's name, greeted by name. */
  function GreetPost(name: string): (message: string)
    ensures Contains(message, name)
  {
    ContainsInfix("🎉 Приветствуем, ", name, "! Добро пожаловать!");
    "🎉 Приветствуем, " + name + "! Добро пожаловать!"
  }

  /** `GET /api/greet`: the name, `"Гость"` when the parameter is absent. */
  function ApiGreet(name: Option<string>): (message: string)
    ensures name.Some? ==> Contains(message, name.value)
    ensures name.None? ==> message == "Привет, " + DefaultGuest + "!"
  {
    var n := if name.Some? then name.value else DefaultGuest;
    ContainsInfix("Привет, ", n, "!");
    "Привет, " + n + "!"
  }
}
