/** The shared HTTP helpers of internal/pkg/http: business status codes and
    their default messages, the response envelopes, and the paging request. */
module Http {

  // ---------------- code.go ----------------

  /** Business status code (an int in the source; any value is a Code). */
  type Code = int

  const Success: Code := 0
  const Failed: Code := 2000
  const Unauthorized: Code := 2001
  const NotFound: Code := 2002

  /** The default message table. */
  const CodeMessages: map<Code, string> := map[
    Success := "成功",
    Failed := "操作失败",
    Unauthorized := "未授权",
    NotFound := "资源不存在"
  ]

  const UnknownMessage := "未知错误"

  /** Code.Message: the table's entry for a known code, "未知错误" for any
      other; never empty. */
  function Message(c: Code): (m: string)
    ensures c in CodeMessages ==> m == CodeMessages[c]
    ensures c !in CodeMessages ==> m == UnknownMessage
    ensures m != ""
  {
    if c in CodeMessages then CodeMessages[c] else UnknownMessage
  }

  /** Exactly the four defined codes have a message of their own. */
  lemma KnownCodes(c: Code)
    ensures Message(c) != UnknownMessage <==> c in {Success, Failed, Unauthorized, NotFound}
  {
  }

  // ---------------- response.go / handler.go ----------------

  /** HttpResponse; the payload is a type parameter (it may be absent). */
  datatype HttpResponse<T> = HttpResponse(code: Code, message: string, data: T)

  /** HttpPageResponse: the base envelope plus paging figures. */
  datatype HttpPageResponse<T> = HttpPageResponse(base: HttpResponse<T>, page: int, size: int, total: int)

  /** The message actually sent: a caller's non-empty message wins, an
      empty one falls back to the code's default. */
  function EffectiveMessage(code: Code, message: string): (m: string)
    ensures message != "" ==> m == message
    ensures message == "" ==> m == Message(code)
    ensures m != ""
  {
    if message == "" then Message(code) else message
  }

  /** NewResponse: code and payload unchanged, message defaulted. */
  function NewResponse<T>(code: Code, message: string, data: T): (r: HttpResponse<T>)
    ensures r.code == code && r.data == data
    ensures r.message == EffectiveMessage(code, message)
  {
    HttpResponse(code, EffectiveMessage(code, message), data)
  }

  /** NewPageResponse: the same envelope as NewResponse, plus the paging
      figures exactly as given. */
  function NewPageResponse<T>(code: Code, message: string, data: T, page: int, size: int, total: int): (r: HttpPageResponse<T>)
    ensures r.base == NewResponse(code, message, data)
    ensures r.page == page && r.size == size && r.total == total
  {
    HttpPageResponse(HttpResponse(code, EffectiveMessage(code, message), data), page, size, total)
  }

  /** No response the two constructors build ever carries an empty message. */
  lemma ResponsesNeverSilent<T>(code: Code, message: string, data: T, page: int, size: int, total: int)
    ensures NewResponse(code, message, data).message != ""
    ensures NewPageResponse(code, message, data, page, size, total).base.message != ""
  {
  }

  // ---------------- request.go ----------------

  /** A Go `int` on the 64-bit targets the service is built for. */
  const Int64Min := -0x8000_0000_0000_0000
  const Int64Max := 0x7fff_ffff_ffff_ffff
  type Int64 = x: int | Int64Min <= x <= Int64Max

  /** PageReq as bound from the query string; nothing guarantees the
      binding rules ran, so both fields may hold any int. */
  datatype PageReq = PageReq(page: Int64, size: Int64)

  const DefaultPageSize := 10
  const MaxPageSize := 100

  /** GetPage: at least 1; a positive page is kept, anything else becomes 1. */
  function GetPage(r: PageReq): (p: Int64)
    ensures p >= 1
    ensures r.page >= 1 ==> p == r.page
    ensures r.page <= 0 ==> p == 1
  {
    if r.page <= 0 then 1 else r.page
  }

  /** GetPageSize: within [1, 100]; a size in range is kept, a
      non-positive one becomes 10, a larger one 100. */
  function GetPageSize(r: PageReq): (n: Int64)
    ensures 1 <= n <= MaxPageSize
    ensures 1 <= r.size <= MaxPageSize ==> n == r.size
    ensures r.size <= 0 ==> n == DefaultPageSize
    ensures r.size > MaxPageSize ==> n == MaxPageSize
  {
    if r.size <= 0 then DefaultPageSize
    else if r.size > MaxPageSize then MaxPageSize
    else r.size
  }

  /** Normalising twice changes nothing. */
  lemma PagingIdempotent(r: PageReq)
    ensures var n := PageReq(GetPage(r), GetPageSize(r));
            GetPage(n) == GetPage(r) && GetPageSize(n) == GetPageSize(r)
  {
  }

  /** Two's-complement wrap-around of a 64-bit signed result. */
  function Wrap64(x: int): (w: Int64)
    ensures Int64Min <= x <= Int64Max ==> w == x
    ensures (w - x) % 0x1_0000_0000_0000_0000 == 0
  {
    (x - Int64Min) % 0x1_0000_0000_0000_0000 + Int64Min
  }

  /** GetOffset as written: the product is computed in 64-bit arithmetic. */
  function GetOffsetAsWritten(r: PageReq): (o: Int64)
    ensures (GetPage(r) - 1) * GetPageSize(r) <= Int64Max ==> o == (GetPage(r) - 1) * GetPageSize(r)
  {
    Wrap64((GetPage(r) - 1) * GetPageSize(r))
  }

  /** The wrap-around is reachable: page 2^61 + 1 with size 100 gives the
      most negative offset. */
  lemma GetOffsetAsWrittenGoesNegative()
    ensures GetOffsetAsWritten(PageReq(0x2000_0000_0000_0001, 100)) == Int64Min
  {
    var r := PageReq(0x2000_0000_0000_0001, 100);
    assert (GetPage(r) - 1) * GetPageSize(r) == 0x2000_0000_0000_0000 * 100;
  }

  /** GetOffset as intended: the number of rows on the pages before the
      requested one, never negative, and zero exactly for the first page. */
  function GetOffset(r: PageReq): (o: int)
    ensures o >= 0
    ensures o % GetPageSize(r) == 0 && o / GetPageSize(r) == GetPage(r) - 1
    ensures o == 0 <==> GetPage(r) == 1
  {
    var o := (GetPage(r) - 1) * GetPageSize(r);
    ExactDivision(GetPage(r) - 1, GetPageSize(r));
    o
  }

  /** A multiple of n divides back exactly. */
  lemma ExactDivision(k: nat, n: int)
    requires n > 0
    ensures (k * n) % n == 0 && (k * n) / n == k
    ensures k * n >= 0
    ensures k * n == 0 <==> k == 0
  {
    var q, m := (k * n) / n, (k * n) % n;
    assert k * n == q * n + m;
    assert (k - q) * n == m;
    if k - q >= 1 {
      assert false;
    } else if k - q <= -1 {
      assert false;
    }
  }

  /** Below the overflow bound the code as written and the intended offset
      agree; every page up to 2^63 / 100 is below it. */
  lemma GetOffsetAgreesInRange(r: PageReq)
    requires GetPage(r) <= 92233720368547758
    ensures GetOffsetAsWritten(r) == GetOffset(r)
  {
    assert (GetPage(r) - 1) * GetPageSize(r) <= 92233720368547757 * 100 by {
      MulMono(GetPage(r) - 1, 92233720368547757, GetPageSize(r), 100);
    }
  }

  lemma MulMono(a: int, a': int, b: int, b': int)
    requires 0 <= a <= a' && 0 <= b <= b'
    ensures a * b <= a' * b'
  {
    assert a * b <= a' * b;
    assert a' * b <= a' * b';
  }
}
