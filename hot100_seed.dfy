/** The Hot 100 seed loader: the built-in list of 103 problems and the
    loop that stores each one whose `SourceId` is not stored yet. */
module Hot100Seed {
  import opened Wrappers
  import opened Times
  import opened Domain
  import opened ProblemDao
  import opened ProblemRepository

  /** `Hot100Problem`: one entry of the seed list. */
  datatype Hot100Problem = Hot100Problem(id: string, title: string, titleSlug: string, difficulty: string)

  // ------------------------------------------------------------ the list

  /** `Hot100Problems`, in source order. It is written in parts of eight
      entries so that each part's facts are checked on their own. */
  const Hot100Problems: seq<Hot100Problem> := Part01 + Part02 + Part03 + Part04 + Part05 + Part06 + Part07 + Part08 + Part09 + Part10 + Part11 + Part12 + Part13

  const Part01: seq<Hot100Problem> := [
    Hot100Problem("1", "两数之和", "two-sum", "Easy"),
    Hot100Problem("2", "两数相加", "add-two-numbers", "Medium"),
    Hot100Problem("3", "无重复字符的最长子串", "longest-substring-without-repeating-characters", "Medium"),
    Hot100Problem("4", "寻找两个正序数组的中位数", "median-of-two-sorted-arrays", "Hard"),
    Hot100Problem("5", "最长回文子串", "longest-palindromic-substring", "Medium"),
    Hot100Problem("11", "盛最多水的容器", "container-with-most-water", "Medium"),
    Hot100Problem("15", "三数之和", "3sum", "Medium"),
    Hot100Problem("17", "电话号码的字母组合", "letter-combinations-of-a-phone-number", "Medium")
  ]

  const Part02: seq<Hot100Problem> := [
    Hot100Problem("19", "删除链表的倒数第 N 个结点", "remove-nth-node-from-end-of-list", "Medium"),
    Hot100Problem("20", "有效的括号", "valid-parentheses", "Easy"),
    Hot100Problem("21", "合并两个有序链表", "merge-two-sorted-lists", "Easy"),
    Hot100Problem("22", "括号生成", "generate-parentheses", "Medium"),
    Hot100Problem("23", "合并K个升序链表", "merge-k-sorted-lists", "Hard"),
    Hot100Problem("25", "K 个一组翻转链表", "reverse-nodes-in-k-group", "Hard"),
    Hot100Problem("31", "下一个排列", "next-permutation", "Medium"),
    Hot100Problem("32", "最长有效括号", "longest-valid-parentheses", "Hard")
  ]

  const Part03: seq<Hot100Problem> := [
    Hot100Problem("33", "搜索旋转排序数组", "search-in-rotated-sorted-array", "Medium"),
    Hot100Problem("34", "在排序数组中查找元素的第一个和最后一个位置", "find-first-and-last-position-of-element-in-sorted-array", "Medium"),
    Hot100Problem("35", "搜索插入位置", "search-insert-position", "Easy"),
    Hot100Problem("39", "组合总和", "combination-sum", "Medium"),
    Hot100Problem("42", "接雨水", "trapping-rain-water", "Hard"),
    Hot100Problem("46", "全排列", "permutations", "Medium"),
    Hot100Problem("48", "旋转图像", "rotate-image", "Medium"),
    Hot100Problem("49", "字母异位词分组", "group-anagrams", "Medium")
  ]

  const Part04: seq<Hot100Problem> := [
    Hot100Problem("53", "最大子数组和", "maximum-subarray", "Medium"),
    Hot100Problem("55", "跳跃游戏", "jump-game", "Medium"),
    Hot100Problem("56", "合并区间", "merge-intervals", "Medium"),
    Hot100Problem("62", "不同路径", "unique-paths", "Medium"),
    Hot100Problem("64", "最小路径和", "minimum-path-sum", "Medium"),
    Hot100Problem("70", "爬楼梯", "climbing-stairs", "Easy"),
    Hot100Problem("72", "编辑距离", "edit-distance", "Hard"),
    Hot100Problem("75", "颜色分类", "sort-colors", "Medium")
  ]

  const Part05: seq<Hot100Problem> := [
    Hot100Problem("76", "最小覆盖子串", "minimum-window-substring", "Hard"),
    Hot100Problem("78", "子集", "subsets", "Medium"),
    Hot100Problem("79", "单词搜索", "word-search", "Medium"),
    Hot100Problem("84", "柱状图中最大的矩形", "largest-rectangle-in-histogram", "Hard"),
    Hot100Problem("85", "最大矩形", "maximal-rectangle", "Hard"),
    Hot100Problem("94", "二叉树的中序遍历", "binary-tree-inorder-traversal", "Easy"),
    Hot100Problem("96", "不同的二叉搜索树", "unique-binary-search-trees", "Medium"),
    Hot100Problem("98", "验证二叉搜索树", "validate-binary-search-tree", "Medium")
  ]

  const Part06: seq<Hot100Problem> := [
    Hot100Problem("101", "对称二叉树", "symmetric-tree", "Easy"),
    Hot100Problem("102", "二叉树的层序遍历", "binary-tree-level-order-traversal", "Medium"),
    Hot100Problem("104", "二叉树的最大深度", "maximum-depth-of-binary-tree", "Easy"),
    Hot100Problem("105", "从前序与中序遍历序列构造二叉树", "construct-binary-tree-from-preorder-and-inorder-traversal", "Medium"),
    Hot100Problem("114", "二叉树展开为链表", "flatten-binary-tree-to-linked-list", "Medium"),
    Hot100Problem("121", "买卖股票的最佳时机", "best-time-to-buy-and-sell-stock", "Easy"),
    Hot100Problem("124", "二叉树中的最大路径和", "binary-tree-maximum-path-sum", "Hard"),
    Hot100Problem("128", "最长连续序列", "longest-consecutive-sequence", "Medium")
  ]

  const Part07: seq<Hot100Problem> := [
    Hot100Problem("136", "只出现一次的数字", "single-number", "Easy"),
    Hot100Problem("139", "单词拆分", "word-break", "Medium"),
    Hot100Problem("141", "环形链表", "linked-list-cycle", "Easy"),
    Hot100Problem("142", "环形链表 II", "linked-list-cycle-ii", "Medium"),
    Hot100Problem("146", "LRU 缓存", "lru-cache", "Medium"),
    Hot100Problem("148", "排序链表", "sort-list", "Medium"),
    Hot100Problem("152", "乘积最大子数组", "maximum-product-subarray", "Medium"),
    Hot100Problem("155", "最小栈", "min-stack", "Medium")
  ]

  const Part08: seq<Hot100Problem> := [
    Hot100Problem("160", "相交链表", "intersection-of-two-linked-lists", "Easy"),
    Hot100Problem("169", "多数元素", "majority-element", "Easy"),
    Hot100Problem("198", "打家劫舍", "house-robber", "Medium"),
    Hot100Problem("200", "岛屿数量", "number-of-islands", "Medium"),
    Hot100Problem("206", "反转链表", "reverse-linked-list", "Easy"),
    Hot100Problem("207", "课程表", "course-schedule", "Medium"),
    Hot100Problem("208", "实现 Trie (前缀树)", "implement-trie-prefix-tree", "Medium"),
    Hot100Problem("215", "数组中的第K个最大元素", "kth-largest-element-in-an-array", "Medium")
  ]

  const Part09: seq<Hot100Problem> := [
    Hot100Problem("221", "最大正方形", "maximal-square", "Medium"),
    Hot100Problem("226", "翻转二叉树", "invert-binary-tree", "Easy"),
    Hot100Problem("234", "回文链表", "palindrome-linked-list", "Easy"),
    Hot100Problem("236", "二叉树的最近公共祖先", "lowest-common-ancestor-of-a-binary-tree", "Medium"),
    Hot100Problem("238", "除自身以外数组的乘积", "product-of-array-except-self", "Medium"),
    Hot100Problem("239", "滑动窗口最大值", "sliding-window-maximum", "Hard"),
    Hot100Problem("240", "搜索二维矩阵 II", "search-a-2d-matrix-ii", "Medium"),
    Hot100Problem("253", "会议室 II", "meeting-rooms-ii", "Medium")
  ]

  const Part10: seq<Hot100Problem> := [
    Hot100Problem("279", "完全平方数", "perfect-squares", "Medium"),
    Hot100Problem("283", "移动零", "move-zeroes", "Easy"),
    Hot100Problem("287", "寻找重复数", "find-the-duplicate-number", "Medium"),
    Hot100Problem("297", "二叉树的序列化与反序列化", "serialize-and-deserialize-binary-tree", "Hard"),
    Hot100Problem("300", "最长递增子序列", "longest-increasing-subsequence", "Medium"),
    Hot100Problem("301", "删除无效的括号", "remove-invalid-parentheses", "Hard"),
    Hot100Problem("309", "最佳买卖股票时机含冷冻期", "best-time-to-buy-and-sell-stock-with-cooldown", "Medium"),
    Hot100Problem("312", "戳气球", "burst-balloons", "Hard")
  ]

  const Part11: seq<Hot100Problem> := [
    Hot100Problem("322", "零钱兑换", "coin-change", "Medium"),
    Hot100Problem("337", "打家劫舍 III", "house-robber-iii", "Medium"),
    Hot100Problem("338", "比特位计数", "counting-bits", "Easy"),
    Hot100Problem("347", "前 K 个高频元素", "top-k-frequent-elements", "Medium"),
    Hot100Problem("394", "字符串解码", "decode-string", "Medium"),
    Hot100Problem("399", "除法求值", "evaluate-division", "Medium"),
    Hot100Problem("406", "根据身高重建队列", "queue-reconstruction-by-height", "Medium"),
    Hot100Problem("416", "分割等和子集", "partition-equal-subset-sum", "Medium")
  ]

  const Part12: seq<Hot100Problem> := [
    Hot100Problem("437", "路径总和 III", "path-sum-iii", "Medium"),
    Hot100Problem("438", "找到字符串中所有字母异位词", "find-all-anagrams-in-a-string", "Medium"),
    Hot100Problem("448", "找到所有数组中消失的数字", "find-all-numbers-disappeared-in-an-array", "Easy"),
    Hot100Problem("461", "汉明距离", "hamming-distance", "Easy"),
    Hot100Problem("494", "目标和", "target-sum", "Medium"),
    Hot100Problem("538", "把二叉搜索树转换为累加树", "convert-bst-to-greater-tree", "Medium"),
    Hot100Problem("543", "二叉树的直径", "diameter-of-binary-tree", "Easy"),
    Hot100Problem("560", "和为 K 的子数组", "subarray-sum-equals-k", "Medium")
  ]

  const Part13: seq<Hot100Problem> := [
    Hot100Problem("581", "最短无序连续子数组", "shortest-unsorted-continuous-subarray", "Medium"),
    Hot100Problem("617", "合并二叉树", "merge-two-binary-trees", "Easy"),
    Hot100Problem("621", "任务调度器", "task-scheduler", "Medium"),
    Hot100Problem("647", "回文子串", "palindromic-substrings", "Medium"),
    Hot100Problem("739", "每日温度", "daily-temperatures", "Medium"),
    Hot100Problem("763", "划分字母区间", "partition-labels", "Medium"),
    Hot100Problem("1143", "最长公共子序列", "longest-common-subsequence", "Medium")
  ]

  /** IDs are decimal numerals without leading zeros, so numeric order is
      shorter-first, then character by character from position k on. */
  predicate LexLessFrom(a: string, b: string, k: nat)
    requires |a| == |b|
    decreases |a| - k
  {
    k < |a| && (a[k] < b[k] || (a[k] == b[k] && LexLessFrom(a, b, k + 1)))
  }

  predicate IdBefore(a: string, b: string)
  {
    |a| < |b| || (|a| == |b| && LexLessFrom(a, b, 0))
  }

  lemma {:induction false} LexLessTransitive(a: string, b: string, c: string, k: nat)
    requires |a| == |b| == |c| && LexLessFrom(a, b, k) && LexLessFrom(b, c, k)
    ensures LexLessFrom(a, c, k)
    decreases |a| - k
  {
    if a[k] == b[k] && b[k] == c[k] {
      LexLessTransitive(a, b, c, k + 1);
    }
  }

  lemma {:induction false} LexLessIrreflexive(a: string, k: nat)
    ensures !LexLessFrom(a, a, k)
    decreases |a| - k
  {
    if k < |a| {
      LexLessIrreflexive(a, k + 1);
    }
  }

  lemma IdBeforeTransitive(a: string, b: string, c: string)
    requires IdBefore(a, b) && IdBefore(b, c)
    ensures IdBefore(a, c)
  {
    if |a| == |b| == |c| {
      LexLessTransitive(a, b, c, 0);
    }
  }

  lemma IdBeforeDistinct(a: string, b: string)
    requires IdBefore(a, b)
    ensures a != b
  {
    LexLessIrreflexive(a, 0);
  }

  /** Each entry's ID comes before the next one's. */
  predicate Ascending(l: seq<Hot100Problem>)
  {
    forall i :: 0 <= i < |l| - 1 ==> IdBefore(l[i].id, l[i + 1].id)
  }

  /** `Ascending` from position i on, checked one neighbour pair at a time. */
  predicate AscendingFrom(l: seq<Hot100Problem>, i: nat)
    decreases |l| - i
  {
    i + 1 >= |l| || (IdBefore(l[i].id, l[i + 1].id) && AscendingFrom(l, i + 1))
  }

  lemma {:induction false} AscendingFromAll(l: seq<Hot100Problem>, i: nat)
    requires AscendingFrom(l, i)
    ensures forall j :: i <= j < |l| - 1 ==> IdBefore(l[j].id, l[j + 1].id)
    decreases |l| - i
  {
    if i + 1 < |l| {
      AscendingFromAll(l, i + 1);
    }
  }

  /** Every difficulty is one of the three the catalog uses. */
  predicate Rated(l: seq<Hot100Problem>)
  {
    forall i :: 0 <= i < |l| ==> l[i].difficulty in {"Easy", "Medium", "Hard"}
  }

  /** No two entries share an ID. */
  predicate DistinctIds(l: seq<Hot100Problem>)
  {
    forall i, j :: 0 <= i < j < |l| ==> l[i].id != l[j].id
  }

  lemma AscendingConcat(a: seq<Hot100Problem>, b: seq<Hot100Problem>)
    requires Ascending(a) && Ascending(b) && |a| > 0 && |b| > 0 && IdBefore(a[|a| - 1].id, b[0].id)
    ensures Ascending(a + b)
  {
    var ab := a + b;
    forall i | 0 <= i < |ab| - 1 ensures IdBefore(ab[i].id, ab[i + 1].id) {
      if i == |a| - 1 {
        assert ab[i] == a[|a| - 1] && ab[i + 1] == b[0];
      } else if i < |a| - 1 {
        assert ab[i] == a[i] && ab[i + 1] == a[i + 1];
      } else {
        assert ab[i] == b[i - |a|] && ab[i + 1] == b[i - |a| + 1];
      }
    }
  }

  lemma RatedConcat(a: seq<Hot100Problem>, b: seq<Hot100Problem>)
    requires Rated(a) && Rated(b)
    ensures Rated(a + b)
  {
    var ab := a + b;
    forall i | 0 <= i < |ab| ensures ab[i].difficulty in {"Easy", "Medium", "Hard"} {
      if i < |a| {
        assert ab[i] == a[i];
      } else {
        assert ab[i] == b[i - |a|];
      }
    }
  }

  /** Ascending IDs are pairwise distinct. */
  lemma {:induction false} AscendingDistinct(l: seq<Hot100Problem>)
    requires Ascending(l)
    ensures DistinctIds(l)
  {
    forall i, j | 0 <= i < j < |l| ensures l[i].id != l[j].id {
      AscendingBefore(l, i, j);
      IdBeforeDistinct(l[i].id, l[j].id);
    }
  }

  lemma {:induction false} AscendingBefore(l: seq<Hot100Problem>, i: int, j: int)
    requires Ascending(l) && 0 <= i < j < |l|
    ensures IdBefore(l[i].id, l[j].id)
    decreases j - i
  {
    if j > i + 1 {
      AscendingBefore(l, i, j - 1);
      IdBeforeTransitive(l[i].id, l[j - 1].id, l[j].id);
    }
  }

  lemma Part01Ascending()
    ensures Ascending(Part01)
  {
    assert AscendingFrom(Part01, 0);
    AscendingFromAll(Part01, 0);
  }

  lemma Part01Rated()
    ensures Rated(Part01)
  {
  }

  lemma Part02Ascending()
    ensures Ascending(Part02)
  {
    assert AscendingFrom(Part02, 0);
    AscendingFromAll(Part02, 0);
  }

  lemma Part02Rated()
    ensures Rated(Part02)
  {
  }

  lemma Part03Ascending()
    ensures Ascending(Part03)
  {
    assert AscendingFrom(Part03, 0);
    AscendingFromAll(Part03, 0);
  }

  lemma Part03Rated()
    ensures Rated(Part03)
  {
  }

  lemma Part04Ascending()
    ensures Ascending(Part04)
  {
    assert AscendingFrom(Part04, 0);
    AscendingFromAll(Part04, 0);
  }

  lemma Part04Rated()
    ensures Rated(Part04)
  {
  }

  lemma Part05Ascending()
    ensures Ascending(Part05)
  {
    assert AscendingFrom(Part05, 0);
    AscendingFromAll(Part05, 0);
  }

  lemma Part05Rated()
    ensures Rated(Part05)
  {
  }

  lemma Part06Ascending()
    ensures Ascending(Part06)
  {
    assert AscendingFrom(Part06, 0);
    AscendingFromAll(Part06, 0);
  }

  lemma Part06Rated()
    ensures Rated(Part06)
  {
  }

  lemma Part07Ascending()
    ensures Ascending(Part07)
  {
    assert AscendingFrom(Part07, 0);
    AscendingFromAll(Part07, 0);
  }

  lemma Part07Rated()
    ensures Rated(Part07)
  {
  }

  lemma Part08Ascending()
    ensures Ascending(Part08)
  {
    assert AscendingFrom(Part08, 0);
    AscendingFromAll(Part08, 0);
  }

  lemma Part08Rated()
    ensures Rated(Part08)
  {
  }

  lemma Part09Ascending()
    ensures Ascending(Part09)
  {
    assert AscendingFrom(Part09, 0);
    AscendingFromAll(Part09, 0);
  }

  lemma Part09Rated()
    ensures Rated(Part09)
  {
  }

  lemma Part10Ascending()
    ensures Ascending(Part10)
  {
    assert AscendingFrom(Part10, 0);
    AscendingFromAll(Part10, 0);
  }

  lemma Part10Rated()
    ensures Rated(Part10)
  {
  }

  lemma Part11Ascending()
    ensures Ascending(Part11)
  {
    assert AscendingFrom(Part11, 0);
    AscendingFromAll(Part11, 0);
  }

  lemma Part11Rated()
    ensures Rated(Part11)
  {
  }

  lemma Part12Ascending()
    ensures Ascending(Part12)
  {
    assert AscendingFrom(Part12, 0);
    AscendingFromAll(Part12, 0);
  }

  lemma Part12Rated()
    ensures Rated(Part12)
  {
  }

  lemma Part13Ascending()
    ensures Ascending(Part13)
  {
    assert AscendingFrom(Part13, 0);
    AscendingFromAll(Part13, 0);
  }

  lemma Part13Rated()
    ensures Rated(Part13)
  {
  }

  /** The last ID of each of the first parts comes before the first of the next. */
  lemma EarlyPartsJoin()
    ensures IdBefore(Part01[|Part01| - 1].id, Part02[0].id)
            && IdBefore(Part02[|Part02| - 1].id, Part03[0].id)
            && IdBefore(Part03[|Part03| - 1].id, Part04[0].id)
            && IdBefore(Part04[|Part04| - 1].id, Part05[0].id)
            && IdBefore(Part05[|Part05| - 1].id, Part06[0].id)
            && IdBefore(Part06[|Part06| - 1].id, Part07[0].id)
  {
  }

  /** The same for the later parts. */
  lemma LatePartsJoin()
    ensures IdBefore(Part07[|Part07| - 1].id, Part08[0].id)
            && IdBefore(Part08[|Part08| - 1].id, Part09[0].id)
            && IdBefore(Part09[|Part09| - 1].id, Part10[0].id)
            && IdBefore(Part10[|Part10| - 1].id, Part11[0].id)
            && IdBefore(Part11[|Part11| - 1].id, Part12[0].id)
            && IdBefore(Part12[|Part12| - 1].id, Part13[0].id)
  {
  }

  lemma SeedListAscending()
    ensures Ascending(Hot100Problems)
  {
    Part01Ascending();
    Part02Ascending();
    Part03Ascending();
    Part04Ascending();
    Part05Ascending();
    Part06Ascending();
    Part07Ascending();
    Part08Ascending();
    Part09Ascending();
    Part10Ascending();
    Part11Ascending();
    Part12Ascending();
    Part13Ascending();
    EarlyPartsJoin();
    LatePartsJoin();
    AscendingConcat(Part01, Part02);
    AscendingConcat(Part01 + Part02, Part03);
    AscendingConcat(Part01 + Part02 + Part03, Part04);
    AscendingConcat(Part01 + Part02 + Part03 + Part04, Part05);
    AscendingConcat(Part01 + Part02 + Part03 + Part04 + Part05, Part06);
    AscendingConcat(Part01 + Part02 + Part03 + Part04 + Part05 + Part06, Part07);
    AscendingConcat(Part01 + Part02 + Part03 + Part04 + Part05 + Part06 + Part07, Part08);
    AscendingConcat(Part01 + Part02 + Part03 + Part04 + Part05 + Part06 + Part07 + Part08, Part09);
    AscendingConcat(Part01 + Part02 + Part03 + Part04 + Part05 + Part06 + Part07 + Part08 + Part09, Part10);
    AscendingConcat(Part01 + Part02 + Part03 + Part04 + Part05 + Part06 + Part07 + Part08 + Part09 + Part10, Part11);
    AscendingConcat(Part01 + Part02 + Part03 + Part04 + Part05 + Part06 + Part07 + Part08 + Part09 + Part10 + Part11, Part12);
    AscendingConcat(Part01 + Part02 + Part03 + Part04 + Part05 + Part06 + Part07 + Part08 + Part09 + Part10 + Part11 + Part12, Part13);
  }

  lemma SeedListRated()
    ensures Rated(Hot100Problems)
  {
    Part01Rated();
    Part02Rated();
    Part03Rated();
    Part04Rated();
    Part05Rated();
    Part06Rated();
    Part07Rated();
    Part08Rated();
    Part09Rated();
    Part10Rated();
    Part11Rated();
    Part12Rated();
    Part13Rated();
    RatedConcat(Part01, Part02);
    RatedConcat(Part01 + Part02, Part03);
    RatedConcat(Part01 + Part02 + Part03, Part04);
    RatedConcat(Part01 + Part02 + Part03 + Part04, Part05);
    RatedConcat(Part01 + Part02 + Part03 + Part04 + Part05, Part06);
    RatedConcat(Part01 + Part02 + Part03 + Part04 + Part05 + Part06, Part07);
    RatedConcat(Part01 + Part02 + Part03 + Part04 + Part05 + Part06 + Part07, Part08);
    RatedConcat(Part01 + Part02 + Part03 + Part04 + Part05 + Part06 + Part07 + Part08, Part09);
    RatedConcat(Part01 + Part02 + Part03 + Part04 + Part05 + Part06 + Part07 + Part08 + Part09, Part10);
    RatedConcat(Part01 + Part02 + Part03 + Part04 + Part05 + Part06 + Part07 + Part08 + Part09 + Part10, Part11);
    RatedConcat(Part01 + Part02 + Part03 + Part04 + Part05 + Part06 + Part07 + Part08 + Part09 + Part10 + Part11, Part12);
    RatedConcat(Part01 + Part02 + Part03 + Part04 + Part05 + Part06 + Part07 + Part08 + Part09 + Part10 + Part11 + Part12, Part13);
  }

  /** The seed list's IDs are pairwise distinct and every difficulty is
      `Easy`, `Medium` or `Hard`. */
  lemma SeedListWellFormed()
    ensures DistinctIds(Hot100Problems) && Rated(Hot100Problems)
  {
    SeedListAscending();
    SeedListRated();
    AscendingDistinct(Hot100Problems);
  }

  // ------------------------------------------------------------ the loader

  /** The problem `InsertHot100Problems` builds for an entry. */
  function SeedProblem(e: Hot100Problem, now: Time): CodingProblem
  {
    CodingProblem(0, e.title, e.difficulty, ["Hot 100", "算法"], LeetCode, e.id,
                  "https://leetcode.cn/problems/" + e.titleSlug + "/", NotStarted, None, false, None, true, now, now)
  }

  /** What happened to one entry. */
  datatype Outcome = Skipped | Inserted | Failed

  /** How many entries ended each way. */
  datatype Counts = Counts(success: nat, skip: nat, failed: nat)

  /** One entry: skipped when the lookup by `SourceId` succeeds with rows;
      otherwise the built problem is created, and a failed create is
      logged and passed over. */
  function SeedStep(s: TableState, e: Hot100Problem, now: Time, findDown: bool, createDown: bool): (r: (TableState, Outcome))
    requires ValidState(s)
    ensures ValidState(r.0)
  {
    if !findDown && |RowsBySourceId(s.problems, e.id)| > 0 then (s, Skipped)
    else
      var o := InsertSpec(s, ToEntity(SeedProblem(e, now)), now, createDown);
      (o.0, if o.1.None? then Inserted else Failed)
  }

  /** A skipped or failed entry leaves the table as it was; an inserted one
      is appended under the next key, with every field the entry gave. */
  lemma SeedStepEffect(s: TableState, e: Hot100Problem, now: Time, findDown: bool, createDown: bool)
    requires ValidState(s)
    ensures var r := SeedStep(s, e, now, findDown, createDown);
            && (r.1 != Inserted ==> r.0 == s)
            && (r.1 == Inserted ==> r.0 == s.(problems := s.problems + [ToEntity(SeedProblem(e, now)).(id := s.nextId)],
                                             nextId := s.nextId + 1))
            && (r.1 == Skipped <==> !findDown && Stored(s, e.id))
            && (r.1 == Failed <==> createDown && (findDown || !Stored(s, e.id)))
  {
    LookupFindsStored(s, e.id);
    var p := ToEntity(SeedProblem(e, now));
    assert WithInsertDefaults(p, now) == p;
  }

  /** The row an inserted entry adds: a not-yet-studied leetcode problem
      tagged `Hot 100` and `算法`, flagged Hot 100, under the entry's ID,
      title, difficulty and problem link. */
  lemma SeedInsertedRow(s: TableState, e: Hot100Problem, now: Time, findDown: bool, createDown: bool)
    requires ValidState(s)
    requires SeedStep(s, e, now, findDown, createDown).1 == Inserted
    ensures var t := SeedStep(s, e, now, findDown, createDown).0;
            && |t.problems| == |s.problems| + 1
            && var row := t.problems[|s.problems|];
               && row.id == s.nextId
               && row.tags == ["Hot 100", "算法"] && row.source == "leetcode" && row.sourceId == e.id
               && row.title == e.title && row.difficulty == e.difficulty
               && row.sourceUrl == "https://leetcode.cn/problems/" + e.titleSlug + "/"
               && row.studyStatus == "not_started" && row.isHot100 && !row.isDailyProblem
               && row.ctime == now && row.utime == now
  {
    SeedStepEffect(s, e, now, findDown, createDown);
  }

  /** The counters after one more entry. */
  function Tally(c: Counts, o: Outcome): Counts
  {
    match o
    case Skipped => c.(skip := c.skip + 1)
    case Inserted => c.(success := c.success + 1)
    case Failed => c.(failed := c.failed + 1)
  }

  /** The state and the counts after the first n entries; entry i's lookup
      fails when i is in `findDown`, its create when i is in `createDown`. */
  function SeedRun(s: TableState, l: seq<Hot100Problem>, n: nat, now: Time, findDown: set<nat>, createDown: set<nat>)
    : (r: (TableState, Counts))
    requires ValidState(s) && n <= |l|
    ensures ValidState(r.0)
  {
    if n == 0 then (s, Counts(0, 0, 0))
    else
      var prev := SeedRun(s, l, n - 1, now, findDown, createDown);
      var step := SeedStep(prev.0, l[n - 1], now, (n - 1) in findDown, (n - 1) in createDown);
      (step.0, Tally(prev.1, step.1))
  }

  /** A run of i entries followed by entry i is a run of i + 1 entries. */
  lemma SeedRunGrows(s: TableState, l: seq<Hot100Problem>, i: nat, now: Time, findDown: set<nat>, createDown: set<nat>,
                     before: TableState, counts: Counts)
    requires ValidState(s) && i < |l|
    requires SeedRun(s, l, i, now, findDown, createDown) == (before, counts)
    ensures ValidState(before)
    ensures var step := SeedStep(before, l[i], now, i in findDown, i in createDown);
            SeedRun(s, l, i + 1, now, findDown, createDown) == (step.0, Tally(counts, step.1))
  {
  }

  /** Every entry is counted once, the table grows by one row per success,
      and only a failing create makes a failure. */
  lemma {:induction false} SeedRunCounts(s: TableState, l: seq<Hot100Problem>, n: nat, now: Time,
                                         findDown: set<nat>, createDown: set<nat>)
    requires ValidState(s) && n <= |l|
    ensures var r := SeedRun(s, l, n, now, findDown, createDown);
            && r.1.success + r.1.skip + r.1.failed == n
            && |r.0.problems| == |s.problems| + r.1.success
            && ((forall i :: 0 <= i < n ==> i !in createDown) ==> r.1.failed == 0)
  {
    if n > 0 {
      var i := n - 1;
      SeedRunCounts(s, l, i, now, findDown, createDown);
      SeedCountsOne(s, l, i, now, findDown, createDown);
    }
  }

  /** The step of `SeedRunCounts`. */
  lemma SeedCountsOne(s: TableState, l: seq<Hot100Problem>, i: nat, now: Time, findDown: set<nat>, createDown: set<nat>)
    requires ValidState(s) && i < |l|
    requires var r := SeedRun(s, l, i, now, findDown, createDown);
             && r.1.success + r.1.skip + r.1.failed == i
             && |r.0.problems| == |s.problems| + r.1.success
             && ((forall j :: 0 <= j < i ==> j !in createDown) ==> r.1.failed == 0)
    ensures var r := SeedRun(s, l, i + 1, now, findDown, createDown);
            && r.1.success + r.1.skip + r.1.failed == i + 1
            && |r.0.problems| == |s.problems| + r.1.success
            && ((forall j :: 0 <= j < i + 1 ==> j !in createDown) ==> r.1.failed == 0)
  {
    var prev := SeedRun(s, l, i, now, findDown, createDown);
    SeedRunGrows(s, l, i, now, findDown, createDown, prev.0, prev.1);
    SeedStepEffect(prev.0, l[i], now, i in findDown, i in createDown);
  }

  /** One step only adds rows, so a stored `SourceId` stays stored. */
  lemma SeedStepKeepsStored(s: TableState, e: Hot100Problem, now: Time, findDown: bool, createDown: bool,
                            sourceId: string)
    requires ValidState(s) && Stored(s, sourceId)
    ensures Stored(SeedStep(s, e, now, findDown, createDown).0, sourceId)
  {
    SeedStepEffect(s, e, now, findDown, createDown);
    var x :| x in s.problems && x.sourceId == sourceId;
    assert x in SeedStep(s, e, now, findDown, createDown).0.problems;
  }

  /** After its step an entry's `SourceId` is stored, unless a store call failed. */
  lemma SeedStepStores(s: TableState, e: Hot100Problem, now: Time)
    requires ValidState(s)
    ensures Stored(SeedStep(s, e, now, false, false).0, e.id)
  {
    SeedStepEffect(s, e, now, false, false);
    var t := SeedStep(s, e, now, false, false).0;
    if !Stored(s, e.id) {
      assert t.problems[|t.problems| - 1].sourceId == e.id;
    }
  }

  /** Rows are only ever added, so a stored `SourceId` stays stored. */
  lemma {:induction false} SeedRunKeepsStored(s: TableState, l: seq<Hot100Problem>, n: nat, now: Time,
                                              findDown: set<nat>, createDown: set<nat>, sourceId: string)
    requires ValidState(s) && n <= |l| && Stored(s, sourceId)
    ensures Stored(SeedRun(s, l, n, now, findDown, createDown).0, sourceId)
  {
    if n > 0 {
      var i := n - 1;
      SeedRunKeepsStored(s, l, i, now, findDown, createDown, sourceId);
      SeedKeepsOne(s, l, i, now, findDown, createDown, sourceId);
    }
  }

  /** The step of `SeedRunKeepsStored`. */
  lemma SeedKeepsOne(s: TableState, l: seq<Hot100Problem>, i: nat, now: Time, findDown: set<nat>, createDown: set<nat>,
                     sourceId: string)
    requires ValidState(s) && i < |l| && Stored(SeedRun(s, l, i, now, findDown, createDown).0, sourceId)
    ensures Stored(SeedRun(s, l, i + 1, now, findDown, createDown).0, sourceId)
  {
    var prev := SeedRun(s, l, i, now, findDown, createDown);
    SeedRunGrows(s, l, i, now, findDown, createDown, prev.0, prev.1);
    SeedStepKeepsStored(prev.0, l[i], now, i in findDown, i in createDown, sourceId);
  }

  /** Where no store call of the first n entries fails. */
  predicate FaultFree(findDown: set<nat>, createDown: set<nat>, n: nat)
  {
    forall i :: 0 <= i < n ==> i !in findDown && i !in createDown
  }

  /** The `SourceId` of each of the first n entries is stored in t. */
  predicate AllStored(t: TableState, l: seq<Hot100Problem>, n: nat)
    requires n <= |l|
  {
    forall j :: 0 <= j < n ==> Stored(t, l[j].id)
  }

  /** With a store that never fails, every entry's `SourceId` is stored
      after the run: it was there already, or it was just inserted. */
  lemma {:induction false} SeedRunStoresAll(s: TableState, l: seq<Hot100Problem>, n: nat, now: Time,
                                            findDown: set<nat>, createDown: set<nat>)
    requires ValidState(s) && n <= |l| && FaultFree(findDown, createDown, n)
    ensures AllStored(SeedRun(s, l, n, now, findDown, createDown).0, l, n)
  {
    if n > 0 {
      var i := n - 1;
      assert AllStored(SeedRun(s, l, i, now, findDown, createDown).0, l, i) by {
        SeedRunStoresAll(s, l, i, now, findDown, createDown);
      }
      assert i !in findDown && i !in createDown;
      SeedStoresOne(s, l, i, now, findDown, createDown);
    }
  }

  /** The step of `SeedRunStoresAll`. */
  lemma SeedStoresOne(s: TableState, l: seq<Hot100Problem>, i: nat, now: Time, findDown: set<nat>, createDown: set<nat>)
    requires ValidState(s) && i < |l| && i !in findDown && i !in createDown
    requires AllStored(SeedRun(s, l, i, now, findDown, createDown).0, l, i)
    ensures AllStored(SeedRun(s, l, i + 1, now, findDown, createDown).0, l, i + 1)
  {
    var prev := SeedRun(s, l, i, now, findDown, createDown);
    assert SeedRun(s, l, i + 1, now, findDown, createDown).0 == SeedStep(prev.0, l[i], now, false, false).0 by {
      SeedRunGrows(s, l, i, now, findDown, createDown, prev.0, prev.1);
    }
    StepStoresAll(prev.0, l, i, now);
  }

  /** One fault-free step keeps the earlier entries stored and stores its own. */
  lemma StepStoresAll(t: TableState, l: seq<Hot100Problem>, i: nat, now: Time)
    requires ValidState(t) && i < |l| && AllStored(t, l, i)
    ensures AllStored(SeedStep(t, l[i], now, false, false).0, l, i + 1)
  {
    forall j | 0 <= j < i + 1 ensures Stored(SeedStep(t, l[i], now, false, false).0, l[j].id) {
      if j < i {
        assert Stored(t, l[j].id);
        SeedStepKeepsStored(t, l[i], now, false, false, l[j].id);
      } else {
        SeedStepStores(t, l[i], now);
      }
    }
  }

  /** When the `SourceId` is stored and the lookup works, the entry is skipped. */
  lemma SeedStepSkips(s: TableState, e: Hot100Problem, now: Time, createDown: bool)
    requires ValidState(s) && Stored(s, e.id)
    ensures SeedStep(s, e, now, false, createDown) == (s, Skipped)
  {
    LookupFindsStored(s, e.id);
  }

  /** When every entry's `SourceId` is stored and no lookup fails, the run
      skips everything: nothing is inserted and the table is unchanged. */
  lemma {:induction false} SeedRunSkipsStored(s: TableState, l: seq<Hot100Problem>, n: nat, now: Time,
                                              findDown: set<nat>, createDown: set<nat>)
    requires ValidState(s) && n <= |l|
    requires forall i :: 0 <= i < n ==> i !in findDown && Stored(s, l[i].id)
    ensures SeedRun(s, l, n, now, findDown, createDown) == (s, Counts(0, n, 0))
  {
    if n > 0 {
      var i := n - 1;
      SeedRunSkipsStored(s, l, i, now, findDown, createDown);
      assert i !in findDown && Stored(s, l[i].id);
      SeedSkipsOne(s, l, i, now, findDown, createDown);
    }
  }

  /** The step of `SeedRunSkipsStored`. */
  lemma SeedSkipsOne(s: TableState, l: seq<Hot100Problem>, i: nat, now: Time, findDown: set<nat>, createDown: set<nat>)
    requires ValidState(s) && i < |l| && i !in findDown && Stored(s, l[i].id)
    requires SeedRun(s, l, i, now, findDown, createDown) == (s, Counts(0, i, 0))
    ensures SeedRun(s, l, i + 1, now, findDown, createDown) == (s, Counts(0, i + 1, 0))
  {
    var c := Counts(0, i, 0);
    SeedRunGrows(s, l, i, now, findDown, createDown, s, c);
    SeedStepSkips(s, l[i], now, i in createDown);
    assert Tally(c, Skipped) == Counts(0, i + 1, 0);
  }

  /** Running the loader a second time against a store that never fails
      inserts nothing and skips every entry. */
  lemma SeedRunIdempotent(s: TableState, l: seq<Hot100Problem>, now: Time, later: Time,
                          findDown: set<nat>, createDown: set<nat>)
    requires ValidState(s) && FaultFree(findDown, createDown, |l|)
    ensures var first := SeedRun(s, l, |l|, now, findDown, createDown).0;
            SeedRun(first, l, |l|, later, findDown, createDown) == (first, Counts(0, |l|, 0))
  {
    SeedRunStoresAll(s, l, |l|, now, findDown, createDown);
    SeedRunSkipsStored(SeedRun(s, l, |l|, now, findDown, createDown).0, l, |l|, later, findDown, createDown);
  }

  /** An entry whose `SourceId` is not stored is inserted by a store that
      never fails, and a `SourceId` other than its own stays absent. */
  lemma SeedStepInsertsNew(s: TableState, e: Hot100Problem, now: Time, other: string)
    requires ValidState(s) && !Stored(s, e.id) && !Stored(s, other) && other != e.id
    ensures SeedStep(s, e, now, false, false).1 == Inserted
    ensures !Stored(SeedStep(s, e, now, false, false).0, other)
  {
    SeedStepEffect(s, e, now, false, false);
    var t := SeedStep(s, e, now, false, false).0;
    forall x | x in t.problems ensures x.sourceId != other {
      if x !in s.problems {
        assert x == t.problems[|t.problems| - 1];
      }
    }
  }

  /** After n entries everything was inserted and no later entry's `SourceId` is stored yet. */
  predicate AllInsertedSoFar(s: TableState, l: seq<Hot100Problem>, n: nat, now: Time,
                             findDown: set<nat>, createDown: set<nat>)
    requires ValidState(s) && n <= |l|
  {
    var r := SeedRun(s, l, n, now, findDown, createDown);
    r.1 == Counts(n, 0, 0) && forall j :: n <= j < |l| ==> !Stored(r.0, l[j].id)
  }

  /** On a table holding none of the list's `SourceId`s, a run against a
      store that never fails inserts every entry of a list with distinct IDs. */
  lemma {:induction false} SeedRunInsertsAllNew(s: TableState, l: seq<Hot100Problem>, n: nat, now: Time,
                                                findDown: set<nat>, createDown: set<nat>)
    requires ValidState(s) && n <= |l| && DistinctIds(l) && FaultFree(findDown, createDown, n)
    requires forall i :: 0 <= i < |l| ==> !Stored(s, l[i].id)
    ensures AllInsertedSoFar(s, l, n, now, findDown, createDown)
  {
    if n > 0 {
      var i := n - 1;
      SeedRunInsertsAllNew(s, l, i, now, findDown, createDown);
      assert i !in findDown && i !in createDown;
      SeedInsertsOne(s, l, i, now, findDown, createDown);
    }
  }

  /** The step of `SeedRunInsertsAllNew`. */
  lemma SeedInsertsOne(s: TableState, l: seq<Hot100Problem>, i: nat, now: Time, findDown: set<nat>, createDown: set<nat>)
    requires ValidState(s) && i < |l| && DistinctIds(l) && i !in findDown && i !in createDown
    requires AllInsertedSoFar(s, l, i, now, findDown, createDown)
    ensures AllInsertedSoFar(s, l, i + 1, now, findDown, createDown)
  {
    var prev := SeedRun(s, l, i, now, findDown, createDown);
    var step := SeedStep(prev.0, l[i], now, false, false);
    assert SeedRun(s, l, i + 1, now, findDown, createDown) == (step.0, Tally(prev.1, step.1)) by {
      SeedRunGrows(s, l, i, now, findDown, createDown, prev.0, prev.1);
    }
    assert !Stored(prev.0, l[i].id);
    assert step.1 == Inserted by {
      SeedStepEffect(prev.0, l[i], now, false, false);
    }
    forall j | i + 1 <= j < |l| ensures !Stored(step.0, l[j].id) {
      assert l[i].id != l[j].id;
      SeedStepInsertsNew(prev.0, l[i], now, l[j].id);
    }
  }

  /** On a table holding none of the seed `SourceId`s, a fault-free
      `InsertHot100Problems` inserts all 103 problems. */
  lemma SeedOnFreshTable(s: TableState, now: Time)
    requires ValidState(s)
    requires forall i :: 0 <= i < |Hot100Problems| ==> !Stored(s, Hot100Problems[i].id)
    ensures |Hot100Problems| == 103
    ensures SeedRun(s, Hot100Problems, |Hot100Problems|, now, {}, {}).1 == Counts(103, 0, 0)
  {
    SeedListWellFormed();
    SeedRunInsertsAllNew(s, Hot100Problems, |Hot100Problems|, now, {}, {});
  }

  /** `InsertHot100Problems`: the loop over the seed list, with its two counters. */
  method InsertHot100Problems(repo: CodingProblemRepository, now: Time, findDown: set<nat>, createDown: set<nat>)
    returns (successCount: nat, skipCount: nat)
    requires repo.dao.Valid()
    modifies repo.dao
    ensures repo.dao.Valid()
    ensures var r := SeedRun(old(repo.dao.State()), Hot100Problems, |Hot100Problems|, now, findDown, createDown);
            repo.dao.State() == r.0 && successCount == r.1.success && skipCount == r.1.skip
  {
    successCount, skipCount := InsertAll(repo, Hot100Problems, now, findDown, createDown);
  }

  /** That loop over any list of entries. Entry i's lookup fails when i is in
      `findDown` and its insert when i is in `createDown`; the tally of failed
      entries is kept beside the source's two counters. */
  method InsertAll(repo: CodingProblemRepository, problems: seq<Hot100Problem>, now: Time,
                   findDown: set<nat>, createDown: set<nat>)
    returns (successCount: nat, skipCount: nat)
    requires repo.dao.Valid()
    modifies repo.dao
    ensures repo.dao.Valid()
    ensures var r := SeedRun(old(repo.dao.State()), problems, |problems|, now, findDown, createDown);
            repo.dao.State() == r.0 && successCount == r.1.success && skipCount == r.1.skip
  {
    var c := Counts(0, 0, 0);
    ghost var s0 := repo.dao.State();
    for i := 0 to |problems|
      invariant repo.dao.Valid()
      invariant SeedRun(s0, problems, i, now, findDown, createDown).0 == repo.dao.State()
      invariant SeedRun(s0, problems, i, now, findDown, createDown).1 == c
    {
      ghost var before := repo.dao.State();
      var outcome := InsertHot100Problem(repo, problems[i], now, i in findDown, i in createDown);
      SeedLoopStep(s0, problems, i, now, findDown, createDown, before, c, repo.dao.State(), outcome);
      c := Tally(c, outcome);
    }
    successCount := c.success;
    skipCount := c.skip;
  }

  /** The body of that loop for one entry: look it up by `SourceId`, and
      create it unless the lookup succeeded with rows. */
  method InsertHot100Problem(repo: CodingProblemRepository, hotProblem: Hot100Problem, now: Time,
                             findDown: bool, createDown: bool) returns (outcome: Outcome)
    requires repo.dao.Valid()
    modifies repo.dao
    ensures repo.dao.Valid()
    ensures (repo.dao.State(), outcome) == SeedStep(old(repo.dao.State()), hotProblem, now, findDown, createDown)
  {
    var existing := repo.FindBySourceId(hotProblem.id, findDown);
    if existing.Ok? && |existing.value| > 0 {
      return Skipped;
    }
    var problem := SeedProblem(hotProblem, now);
    var err := repo.Create(problem, now, createDown);
    if err.Some? {
      return Failed;
    }
    return Inserted;
  }

  /** One pass of the loop of `InsertHot100Problems`, stated on its ghost
      state: entry i moved the table from `before` to `after` with that outcome. */
  lemma SeedLoopStep(s: TableState, l: seq<Hot100Problem>, i: nat, now: Time, findDown: set<nat>, createDown: set<nat>,
                     before: TableState, counts: Counts, after: TableState, outcome: Outcome)
    requires ValidState(s) && i < |l|
    requires SeedRun(s, l, i, now, findDown, createDown).0 == before
    requires SeedRun(s, l, i, now, findDown, createDown).1 == counts
    requires ValidState(before) && SeedStep(before, l[i], now, i in findDown, i in createDown) == (after, outcome)
    ensures SeedRun(s, l, i + 1, now, findDown, createDown).0 == after
    ensures SeedRun(s, l, i + 1, now, findDown, createDown).1 == Tally(counts, outcome)
  {
    SeedRunGrows(s, l, i, now, findDown, createDown, before, counts);
  }
}
