/** JSON values as the gateway's decoder produces them. Number tokens are kept as
    text. */
module Json {

  /** An object is the list of its members in some order. */
  datatype Json =
    | Null
    | Bool(b: bool)
    | Num(token: string)
    | Str(s: string)
    | Arr(items: seq<Json>)
    | Obj(fields: seq<(string, Json)>)

  /** Code point order, which is also the order of the encoded bytes. */
  predicate Less(a: string, b: string) {
    b != "" && (a == "" || a[0] < b[0] || (a[0] == b[0] && Less(a[1..], b[1..])))
  }

  lemma {:induction false} LessTotal(a: string, b: string)
    ensures Less(a, b) || a == b || Less(b, a)
    ensures !(Less(a, b) && Less(b, a)) && !Less(a, a)
  {
    if a != "" && b != "" && a[0] == b[0] {
      LessTotal(a[1..], b[1..]);
      assert a == [a[0]] + a[1..] && b == [b[0]] + b[1..];
    }
    if a != "" {
      LessIrreflexive(a);
    }
  }

  /** `a` is smaller where the two first differ, or is a proper front part of `b`. */
  ghost predicate FirstDiffers(a: string, b: string, k: nat) {
    k <= |a| && k < |b| && (forall i :: 0 <= i < k ==> a[i] == b[i]) && (k < |a| ==> a[k] < b[k])
  }

  lemma {:induction false} LessIff(a: string, b: string)
    ensures Less(a, b) <==> exists k: nat :: FirstDiffers(a, b, k)
  {
    if a == "" || b == "" || a[0] != b[0] {
      assert Less(a, b) <==> FirstDiffers(a, b, 0);
    } else {
      LessIff(a[1..], b[1..]);
      forall k: nat | k > 0 ensures FirstDiffers(a, b, k) <==> FirstDiffers(a[1..], b[1..], k - 1) {
        assert forall i :: 1 <= i < k && i < |a| && i < |b| ==> a[i] == a[1..][i - 1] && b[i] == b[1..][i - 1];
        assert forall i :: 0 <= i < k - 1 && i < |a| - 1 && i < |b| - 1 ==> a[1..][i] == a[i + 1] && b[1..][i] == b[i + 1];
      }
      if k: nat :| FirstDiffers(a[1..], b[1..], k) {
        assert FirstDiffers(a, b, k + 1);
      }
    }
  }

  lemma {:induction false} LessIrreflexive(a: string)
    ensures !Less(a, a)
  {
    if a != "" {
      LessIrreflexive(a[1..]);
    }
  }

  lemma {:induction false} LessTransitive(a: string, b: string, c: string)
    requires Less(a, b) && Less(b, c)
    ensures Less(a, c)
  {
    if a != "" && a[0] == b[0] && b[0] == c[0] {
      LessTransitive(a[1..], b[1..], c[1..]);
    }
  }
}
