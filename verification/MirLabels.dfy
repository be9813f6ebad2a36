/** Block labels: a prefix, an underscore and a decimal number, from which the number can be
    read back whatever the prefix. */
module MirLabels {
  import opened Ast
  import opened Mir
  import opened MirFactory

  /** What follows the last underscore. */
  function Suffix(s: string): string {
    if s == [] || s[|s| - 1] == '_' then [] else Suffix(s[..|s| - 1]) + [s[|s| - 1]]
  }

  function DigitValue(c: char): nat {
    if '0' <= c <= '9' then (c - '0') as nat else 0
  }

  function Value(digits: string): nat {
    if digits == [] then 0 else 10 * Value(digits[..|digits| - 1]) + DigitValue(digits[|digits| - 1])
  }

  function LabelNumber(name: string): nat {
    Value(Suffix(name))
  }

  lemma {:induction false} SuffixOf(p: string, d: string)
    requires '_' !in d
    ensures Suffix(p + "_" + d) == d
  {
    var s := p + "_" + d;
    if d == [] {
      assert s[|s| - 1] == '_';
    } else {
      var n := |d| - 1;
      assert s[|s| - 1] == d[n] && d[n] in d;
      assert s[..|s| - 1] == p + "_" + d[..n];
      assert d == d[..n] + [d[n]];
      SuffixOf(p, d[..n]);
    }
  }

  lemma {:induction false} DigitsRead(n: nat)
    ensures Value(Digits(n)) == n && '_' !in Digits(n)
  {
    var c := "0123456789"[n % 10];
    assert DigitValue(c) == n % 10 && c != '_';
    if n < 10 {
      assert Digits(n) == [c];
      assert [c][..0] == [];
    } else {
      DigitsRead(n / 10);
      var d := Digits(n);
      assert d == Digits(n / 10) + [c];
      assert d[..|d| - 1] == Digits(n / 10);
    }
  }

  /** Labels with different numbers differ, and a label's number can be read off. */
  lemma LabelRead(prefix: string, n: nat)
    ensures LabelNumber(MakeLabel(prefix, n)) == n
  {
    DigitsRead(n);
    SuffixOf(prefix, Digits(n));
  }

  function BlockName(st: State, r: BlockRef): string
    requires IsBlock(st, r)
  {
    st.functions[r.fn].blocks[r.block].name
  }

  /** All label numbers were handed out, and none of them twice. */
  ghost predicate LabelsOk(st: State) {
    && (forall r :: IsBlock(st, r) ==> LabelNumber(BlockName(st, r)) < st.blockId)
    && (forall r, q :: IsBlock(st, r) && IsBlock(st, q) && LabelNumber(BlockName(st, r)) == LabelNumber(BlockName(st, q)) ==> r == q)
  }

  lemma SameLabels(a: State, b: State)
    requires LabelsOk(a) && b.blockId >= a.blockId
    requires forall r :: IsBlock(b, r) ==> IsBlock(a, r) && BlockName(b, r) == BlockName(a, r)
    ensures LabelsOk(b)
  {
    hide IsBlock, LabelNumber;
  }

  lemma AddBlockLabels(st: State, prefix: string)
    requires HasFunction(st) && LabelsOk(st)
    ensures LabelsOk(AddBlock(st, prefix))
  {
    var st' := AddBlock(st, prefix);
    var added := BlockRef(|st.functions| - 1, |LastFunction(st).blocks|);
    LabelRead(prefix, st.blockId);
    assert forall r :: IsBlock(st', r) && r != added ==> IsBlock(st, r) && BlockName(st', r) == BlockName(st, r);
    assert BlockName(st', added) == MakeLabel(prefix, st.blockId);
    assert st'.blockId == st.blockId + 1;
    hide IsBlock, LabelNumber, AddBlock, BlockName;
  }

  /** Looking for a block's label finds that block. */
  lemma {:induction false} FindIn(bs: seq<Block>, k: nat)
    requires k < |bs| && forall i :: 0 <= i < |bs| && bs[i].name == bs[k].name ==> i == k
    ensures FindBlockIn(bs, bs[k].name) == Some(k)
  {
    if k > 0 {
      assert bs[0].name != bs[k].name;
      FindIn(bs[1..], k - 1);
    }
  }

  lemma FindLabel(st: State, r: BlockRef)
    requires LabelsOk(st) && IsBlock(st, r)
    ensures FindBlockIn(st.functions[r.fn].blocks, BlockName(st, r)) == Some(r.block)
  {
    var bs := st.functions[r.fn].blocks;
    forall i | 0 <= i < |bs| && bs[i].name == bs[r.block].name ensures i == r.block {
      assert IsBlock(st, BlockRef(r.fn, i)) && BlockName(st, BlockRef(r.fn, i)) == BlockName(st, r);
    }
    FindIn(bs, r.block);
  }
}
