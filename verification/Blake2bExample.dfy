/** The example of appendix A of RFC 7693, which the self-test of blake2b.c has too: the digest of the
    three bytes "abc", step by step. */
module Blake2bExample {
  import opened Words
  import opened Blake2b

  /** The eight steps of a round turn v into w. */
  predicate Becomes(v: seq<bv64>, m: seq<bv64>, s: seq<index>, w: seq<bv64>)
    requires |v| == |m| == |s| == |w| == 16
  {
    hide Mix;
    var (a0, a4, a8, a12) := Mix(v[0], v[4], v[8], v[12], m[s[0]], m[s[1]]);
    var (a1, a5, a9, a13) := Mix(v[1], v[5], v[9], v[13], m[s[2]], m[s[3]]);
    var (a2, a6, a10, a14) := Mix(v[2], v[6], v[10], v[14], m[s[4]], m[s[5]]);
    var (a3, a7, a11, a15) := Mix(v[3], v[7], v[11], v[15], m[s[6]], m[s[7]]);
    && Mix(a0, a5, a10, a15, m[s[8]], m[s[9]]) == (w[0], w[5], w[10], w[15])
    && Mix(a1, a6, a11, a12, m[s[10]], m[s[11]]) == (w[1], w[6], w[11], w[12])
    && Mix(a2, a7, a8, a13, m[s[12]], m[s[13]]) == (w[2], w[7], w[8], w[13])
    && Mix(a3, a4, a9, a14, m[s[14]], m[s[15]]) == (w[3], w[4], w[9], w[14])
  }

  lemma TwoColumns(v: seq<bv64>, m: seq<bv64>, s: seq<index>) returns (w: seq<bv64>)
    requires |v| == |m| == |s| == 16
    ensures w == G(G(v, 0, 4, 8, 12, m[s[0]], m[s[1]]), 1, 5, 9, 13, m[s[2]], m[s[3]])
    ensures (w[0], w[4], w[8], w[12]) == Mix(v[0], v[4], v[8], v[12], m[s[0]], m[s[1]])
    ensures (w[1], w[5], w[9], w[13]) == Mix(v[1], v[5], v[9], v[13], m[s[2]], m[s[3]])
    ensures w[2] == v[2] && w[6] == v[6] && w[10] == v[10] && w[14] == v[14]
    ensures w[3] == v[3] && w[7] == v[7] && w[11] == v[11] && w[15] == v[15]
  {
    hide Mix;
    w := G(v, 0, 4, 8, 12, m[s[0]], m[s[1]]);
    w := G(w, 1, 5, 9, 13, m[s[2]], m[s[3]]);
  }

  lemma Columns(v: seq<bv64>, m: seq<bv64>, s: seq<index>) returns (w: seq<bv64>)
    requires |v| == |m| == |s| == 16
    ensures w == G(G(G(G(v, 0, 4, 8, 12, m[s[0]], m[s[1]]), 1, 5, 9, 13, m[s[2]], m[s[3]]), 2, 6, 10, 14, m[s[4]], m[s[5]]),
                   3, 7, 11, 15, m[s[6]], m[s[7]])
    ensures (w[0], w[4], w[8], w[12]) == Mix(v[0], v[4], v[8], v[12], m[s[0]], m[s[1]])
    ensures (w[1], w[5], w[9], w[13]) == Mix(v[1], v[5], v[9], v[13], m[s[2]], m[s[3]])
    ensures (w[2], w[6], w[10], w[14]) == Mix(v[2], v[6], v[10], v[14], m[s[4]], m[s[5]])
    ensures (w[3], w[7], w[11], w[15]) == Mix(v[3], v[7], v[11], v[15], m[s[6]], m[s[7]])
  {
    hide Mix;
    w := TwoColumns(v, m, s);
    w := G(w, 2, 6, 10, 14, m[s[4]], m[s[5]]);
    w := G(w, 3, 7, 11, 15, m[s[6]], m[s[7]]);
  }

  lemma TwoDiagonals(v: seq<bv64>, m: seq<bv64>, s: seq<index>) returns (w: seq<bv64>)
    requires |v| == |m| == |s| == 16
    ensures w == G(G(v, 0, 5, 10, 15, m[s[8]], m[s[9]]), 1, 6, 11, 12, m[s[10]], m[s[11]])
    ensures (w[0], w[5], w[10], w[15]) == Mix(v[0], v[5], v[10], v[15], m[s[8]], m[s[9]])
    ensures (w[1], w[6], w[11], w[12]) == Mix(v[1], v[6], v[11], v[12], m[s[10]], m[s[11]])
    ensures w[2] == v[2] && w[7] == v[7] && w[8] == v[8] && w[13] == v[13]
    ensures w[3] == v[3] && w[4] == v[4] && w[9] == v[9] && w[14] == v[14]
  {
    hide Mix;
    w := G(v, 0, 5, 10, 15, m[s[8]], m[s[9]]);
    w := G(w, 1, 6, 11, 12, m[s[10]], m[s[11]]);
  }

  lemma Diagonals(v: seq<bv64>, m: seq<bv64>, s: seq<index>) returns (w: seq<bv64>)
    requires |v| == |m| == |s| == 16
    ensures w == G(G(G(G(v, 0, 5, 10, 15, m[s[8]], m[s[9]]), 1, 6, 11, 12, m[s[10]], m[s[11]]), 2, 7, 8, 13, m[s[12]], m[s[13]]),
                   3, 4, 9, 14, m[s[14]], m[s[15]])
    ensures (w[0], w[5], w[10], w[15]) == Mix(v[0], v[5], v[10], v[15], m[s[8]], m[s[9]])
    ensures (w[1], w[6], w[11], w[12]) == Mix(v[1], v[6], v[11], v[12], m[s[10]], m[s[11]])
    ensures (w[2], w[7], w[8], w[13]) == Mix(v[2], v[7], v[8], v[13], m[s[12]], m[s[13]])
    ensures (w[3], w[4], w[9], w[14]) == Mix(v[3], v[4], v[9], v[14], m[s[14]], m[s[15]])
  {
    hide Mix;
    w := TwoDiagonals(v, m, s);
    w := G(w, 2, 7, 8, 13, m[s[12]], m[s[13]]);
    w := G(w, 3, 4, 9, 14, m[s[14]], m[s[15]]);
  }

  /** A round is its four columns and its four diagonals. */
  lemma RoundIs(v: seq<bv64>, m: seq<bv64>, s: seq<index>, w: seq<bv64>)
    requires |v| == |m| == |s| == |w| == 16 && Becomes(v, m, s, w)
    ensures Round(v, m, s) == w
  {
    hide G, Mix;
    var u := Columns(v, m, s);
    var z := Diagonals(u, m, s);
    assert z == Round(v, m, s);
  }

  // ---------- the trace ----------

  /** The message block: three bytes and zeros. */
  const ABC: seq<bv64> := [0x636261, 0, 0, 0, 0, 0, 0, 0, 0, 0, 0, 0, 0, 0, 0, 0]

  /** The working vector before each round, and after the last. */
  const V0: seq<bv64> := [
    0x6a09e667f2bdc948, 0xbb67ae8584caa73b, 0x3c6ef372fe94f82b, 0xa54ff53a5f1d36f1,
    0x510e527fade682d1, 0x9b05688c2b3e6c1f, 0x1f83d9abfb41bd6b, 0x5be0cd19137e2179,
    0x6a09e667f3bcc908, 0xbb67ae8584caa73b, 0x3c6ef372fe94f82b, 0xa54ff53a5f1d36f1,
    0x510e527fade682d2, 0x9b05688c2b3e6c1f, 0xe07c265404be4294, 0x5be0cd19137e2179]
  const V1: seq<bv64> := [
    0x86b7c1568029bb79, 0xc12cbcc809ff59f3, 0xc6a5214cc0eaca8e, 0x0c87cd524c14cc5d,
    0x44ee6039bd86a9f7, 0xa447c850aa694a7e, 0xde080f1bb1c0f84b, 0x595cb8a9a1aca66c,
    0xbec3ae837eac4887, 0x6267fc79df9d6ad1, 0xfa87b01273fa6dbe, 0x521a715c63e08d8a,
    0xe02d0975b8d37a83, 0x1c7b754f08b7d193, 0x8f885a76b6e578fe, 0x2318a24e2140fc64]
  const V2: seq<bv64> := [
    0x53281e83806010f2, 0x3594b403f81b4393, 0x8cd63c7462de0dff, 0x85f693f3da53f974,
    0xbaabdbb2f386d9ae, 0xca5425aec65a10a8, 0xc6a22e2ff0f7aa48, 0xc6a56a51cb89c595,
    0x224e6a3369224f96, 0x500e125e58a92923, 0xe9e4ad0d0e1a0d48, 0x85df9dc143c59a74,
    0x92a3aaaa6d952b7f, 0xc5fdf71090fae853, 0x2a8a40f15a462dd0, 0x572d17effdd37358]
  const V3: seq<bv64> := [
    0x60ed96aa7ad41725, 0xe46a743c71800b9d, 0x1a04b543a01f156b, 0xa2f8716e775c4877,
    0xda0a61bcde4267ea, 0xb1dd230754d7bdee, 0x25a1422779e06d14, 0xe6823ae4c3ff58a5,
    0xa1677e19f37fd5da, 0x22bdce6976b08c51, 0xf1de8696bec11bf1, 0xa0ebd586a4a1d2c8,
    0xc804ebab11c99fa9, 0x8e0cec959c715793, 0x7c45557fae0d4d89, 0x716343f52fdd265e]
  const V4: seq<bv64> := [
    0xbb2a77d3a8382351, 0x45eb47971f23b103, 0x98be297f6e45c684, 0xa36077dee3370b89,
    0x8a03c4cb7e97590a, 0x24192e49ebf54ea0, 0x4f82c9401cb32d7a, 0x8ccd013726420dc4,
    0xa9c9a8f17b1fc614, 0x55908187977514a0, 0x5b44273e66b19d27, 0xb6d5c9fca2579327,
    0x086092cfb858437e, 0x5c4be2156dbeecf9, 0x2efede99ed4eff16, 0x3e7b5f234cd1f804]
  const V5: seq<bv64> := [
    0xc79c15b3d423b099, 0x2da2224e8da97556, 0x77d2b26df1c45c55, 0x8934eb09a3456052,
    0x0f6d9eeed157da2a, 0x6fe66467af88c0a9, 0x4eb0b76284c7aafb, 0x299c8e725d954697,
    0xb2240b59e6d567d3, 0x2643c2370e49ebfd, 0x79e02eef20cdb1ae, 0x64b3eed7bb602f39,
    0xb97d2d439e4df63d, 0xc718e755294c9111, 0x1f0893f2772bb373, 0x1205ea4a7859807d]
  const V6: seq<bv64> := [
    0xe58f97d6385baee4, 0x7640aa9764da137a, 0xdeb4c7c23efe287e, 0x70f6f41c8783c9f6,
    0x7127cd48c76a7708, 0x9e472af0be3db3f6, 0x0f244c62ddf71788, 0x219828aa83880842,
    0x41cca9073c8c4d0d, 0x5c7912bc10df3b4b, 0xa2c3abbd37510ee2, 0xcb5668cc2a9f7859,
    0x8733794f07ac1500, 0xc67a6be42335aa6f, 0xacb22b28681e4c82, 0xdb2161604cbc9828]
  const V7: seq<bv64> := [
    0x6e2d286eeadedc81, 0xbcf02c0787e86358, 0x57d56a56dd015edf, 0x55d899d40a5d0d0a,
    0x819415b56220c459, 0xb63c479a6a769f02, 0x258e55e0ec1f362a, 0x3a3b4ec60e19dfdc,
    0x04d769b3fcb048db, 0xb78a9a33e9bff4dd, 0x5777272ae1e930c0, 0x5a387849e578dbf6,
    0x92aac307cf2c0afc, 0x30aaccc4f06dafaa, 0x483893cc094f8863, 0xe03c6cc89c26bf92]
  const V8: seq<bv64> := [
    0xffc83ece76024d01, 0x1be7bffb8c5cc5f9, 0xa35a18cbac4c65b7, 0xb7c2c7e6d88c285f,
    0x81937da314a50838, 0xe1179523a2541963, 0x3a1fad7106232b8f, 0x1c7ede92ab8b9c46,
    0xa3c2d35e4f685c10, 0xa53d3f73aa619624, 0x30bbcc0285a22f65, 0xbcefbb6a81539e5d,
    0x3841def6f4c9848a, 0x98662c85fba726d4, 0x7762439bd5a851bd, 0xb0b9f0d443d1a889]
  const V9: seq<bv64> := [
    0x753a70a1e8faeadd, 0x6b0d43ca2c25d629, 0xf8343ba8b94f8c0b, 0xbc7d062b0db5cf35,
    0x58540ee1b1aebc47, 0x63c5b9b80d294cb9, 0x490870ecad27debd, 0xb2a90ddf667287fe,
    0x316cc9ebeefad8fc, 0x4a466bcd021526a4, 0x5da7f7638cec5669, 0xd9c8826727d306fc,
    0x88ed6c4f3bd7a537, 0x19ae688ddf67f026, 0x4d8707aab40f7e6d, 0xfd3f572687fea4f1]
  const V10: seq<bv64> := [
    0xe630c747ccd59c4f, 0xbc713d41127571ca, 0x46db183025025078, 0x6727e81260610140,
    0x2d04185eac2a8cba, 0x5f311b88904056ec, 0x40bd313009201aab, 0x0099d4f82a2a1eab,
    0x6dd4fbc1de60165d, 0xb3b0b51de3c86270, 0x900aee2f233b08e5, 0xa07199d87ad058d8,
    0x2c6b25593d717852, 0x37e8ca471beaa5f8, 0x2cfc1bac10ef4457, 0x01369ec18746e775]
  const V11: seq<bv64> := [
    0xe801f73b9768c760, 0x35c6d22320be511d, 0x306f27584f65495e, 0xb51776adf569a77b,
    0xf4f1be86690b3c34, 0x3cc88735d1475e4b, 0x5dac67921ff76949, 0x1cdb9d31ad70cc4e,
    0x35ba354a9c7df448, 0x4929cbe45679d73e, 0x733d1a17248f39db, 0x92d57b736f5f170a,
    0x61b5c0a41d491399, 0xb5c333457e12844a, 0xbd696be010d0d889, 0x02231e1a917fe0bd]
  const V12: seq<bv64> := [
    0x12ef8a641ec4f6d6, 0xbced5de977c9faf5, 0x733ca476c5148639, 0x97df596b0610f6fc,
    0xf42c16519ad5afa7, 0xaa5ac1888e10467e, 0x217d930aa51787f3, 0x906a6ff19e573942,
    0x75ab709bd3dcbf24, 0xee7ce1f345947aa4, 0xf8960d6c2faf5f5e, 0xe332538a36b6d246,
    0x885bef040ef6aa0b, 0xa4939a417bfb78a3, 0x646cbb7af6dce980, 0xe813a23c60af3b82]

  lemma Mixes0()
    ensures Mix(0x6a09e667f2bdc948, 0x510e527fade682d1, 0x6a09e667f3bcc908, 0x510e527fade682d2, 0x636261, 0)
         == (0xf0c9aa0f86491dea, 0xb7defc3d0277e11f, 0xee5e0f39647a9fff, 0x7772fc2886a76c5f)
    ensures Mix(0xbb67ae8584caa73b, 0x9b05688c2b3e6c1f, 0xbb67ae8584caa73b, 0x9b05688c2b3e6c1f, 0, 0)
         == (0x63b7dedf4a4e5ad3, 0xed49c30cd311d50e, 0x7bee264bf3cdadfe, 0x254ef880a19a8726)
    ensures Mix(0x3c6ef372fe94f82b, 0x1f83d9abfb41bd6b, 0x3c6ef372fe94f82b, 0xe07c265404be4294, 0, 0)
         == (0xbe50eb454e0a93d7, 0xa056671704b00d71, 0xb2752dadd66bd8f9, 0x789d43381c47f584)
    ensures Mix(0xa54ff53a5f1d36f1, 0x5be0cd19137e2179, 0xa54ff53a5f1d36f1, 0x5be0cd19137e2179, 0, 0)
         == (0x949804b0483ead14, 0x75e6432fc4661b06, 0xa99463cb37905929, 0xa25ef57d7da312ee)
    ensures Mix(0xf0c9aa0f86491dea, 0xed49c30cd311d50e, 0xb2752dadd66bd8f9, 0xa25ef57d7da312ee, 0, 0)
         == (0x86b7c1568029bb79, 0xa447c850aa694a7e, 0xfa87b01273fa6dbe, 0x2318a24e2140fc64)
    ensures Mix(0x63b7dedf4a4e5ad3, 0xa056671704b00d71, 0xa99463cb37905929, 0x7772fc2886a76c5f, 0, 0)
         == (0xc12cbcc809ff59f3, 0xde080f1bb1c0f84b, 0x521a715c63e08d8a, 0xe02d0975b8d37a83)
    ensures Mix(0xbe50eb454e0a93d7, 0x75e6432fc4661b06, 0xee5e0f39647a9fff, 0x254ef880a19a8726, 0, 0)
         == (0xc6a5214cc0eaca8e, 0x595cb8a9a1aca66c, 0xbec3ae837eac4887, 0x1c7b754f08b7d193)
    ensures Mix(0x949804b0483ead14, 0xb7defc3d0277e11f, 0x7bee264bf3cdadfe, 0x789d43381c47f584, 0, 0)
         == (0x0c87cd524c14cc5d, 0x44ee6039bd86a9f7, 0x6267fc79df9d6ad1, 0x8f885a76b6e578fe)
  {
  }

  lemma Mixes1()
    ensures Mix(0x86b7c1568029bb79, 0x44ee6039bd86a9f7, 0xbec3ae837eac4887, 0xe02d0975b8d37a83, 0, 0)
         == (0x7d7ebc91065eb487, 0xa2a2bb290a6fa0ac, 0xe089c6944d999f41, 0x9c62f81da3622dd5)
    ensures Mix(0xc12cbcc809ff59f3, 0xa447c850aa694a7e, 0x6267fc79df9d6ad1, 0x1c7b754f08b7d193, 0, 0)
         == (0x2985dbd3b522b163, 0x48daa2180cca574f, 0x607c07b706df2755, 0x4134955aae31cc2d)
    ensures Mix(0xc6a5214cc0eaca8e, 0xde080f1bb1c0f84b, 0xfa87b01273fa6dbe, 0x8f885a76b6e578fe, 0, 0)
         == (0x83dcc7c95110e507, 0x25804d5986d6e07f, 0x4defb1cc1d0e5211, 0x8f1947927dee7a35)
    ensures Mix(0x0c87cd524c14cc5d, 0x595cb8a9a1aca66c, 0x521a715c63e08d8a, 0x2318a24e2140fc64, 0, 0)
         == (0xd5f7d943ae7a12d4, 0x47dc958f84e67b9c, 0x53fd198002cb9dc5, 0x3561197657eee886)
    ensures Mix(0x7d7ebc91065eb487, 0x48daa2180cca574f, 0x4defb1cc1d0e5211, 0x3561197657eee886, 0, 0)
         == (0x53281e83806010f2, 0xca5425aec65a10a8, 0xe9e4ad0d0e1a0d48, 0x572d17effdd37358)
    ensures Mix(0x2985dbd3b522b163, 0x25804d5986d6e07f, 0x53fd198002cb9dc5, 0x9c62f81da3622dd5, 0x636261, 0)
         == (0x3594b403f81b4393, 0xc6a22e2ff0f7aa48, 0x85df9dc143c59a74, 0x92a3aaaa6d952b7f)
    ensures Mix(0x83dcc7c95110e507, 0x47dc958f84e67b9c, 0xe089c6944d999f41, 0x4134955aae31cc2d, 0, 0)
         == (0x8cd63c7462de0dff, 0xc6a56a51cb89c595, 0x224e6a3369224f96, 0xc5fdf71090fae853)
    ensures Mix(0xd5f7d943ae7a12d4, 0xa2a2bb290a6fa0ac, 0x607c07b706df2755, 0x8f1947927dee7a35, 0, 0)
         == (0x85f693f3da53f974, 0xbaabdbb2f386d9ae, 0x500e125e58a92923, 0x2a8a40f15a462dd0)
  {
  }

  lemma Mixes2()
    ensures Mix(0x53281e83806010f2, 0xbaabdbb2f386d9ae, 0x224e6a3369224f96, 0x92a3aaaa6d952b7f, 0, 0)
         == (0x224d9730ddde8c9b, 0x1161e9566cec8636, 0x1cc968515f81e2e0, 0xdc073c3e56ef42ae)
    ensures Mix(0x3594b403f81b4393, 0xca5425aec65a10a8, 0x500e125e58a92923, 0xc5fdf71090fae853, 0, 0x636261)
         == (0xe430476788c41ef0, 0x956fe864884ac584, 0xaef099868dce0a96, 0x3052cabffb0fb2d1)
    ensures Mix(0x8cd63c7462de0dff, 0xc6a22e2ff0f7aa48, 0xe9e4ad0d0e1a0d48, 0x2a8a40f15a462dd0, 0, 0)
         == (0x4f163fda2e4243bf, 0x4dfeb83fd06a086b, 0x5d62892a32598f4d, 0x69ea4685aa4d57b0)
    ensures Mix(0x85f693f3da53f974, 0xc6a56a51cb89c595, 0x85df9dc143c59a74, 0x572d17effdd37358, 0, 0)
         == (0x41dd8960f0de029d, 0x78c811fddf5c5824, 0xc92583e5a4ae6f86, 0xeb3719d34531eb68)
    ensures Mix(0x224d9730ddde8c9b, 0x956fe864884ac584, 0x5d62892a32598f4d, 0xeb3719d34531eb68, 0, 0)
         == (0x60ed96aa7ad41725, 0xb1dd230754d7bdee, 0xf1de8696bec11bf1, 0x716343f52fdd265e)
    ensures Mix(0xe430476788c41ef0, 0x4dfeb83fd06a086b, 0xc92583e5a4ae6f86, 0xdc073c3e56ef42ae, 0, 0)
         == (0xe46a743c71800b9d, 0x25a1422779e06d14, 0xa0ebd586a4a1d2c8, 0xc804ebab11c99fa9)
    ensures Mix(0x4f163fda2e4243bf, 0x78c811fddf5c5824, 0x1cc968515f81e2e0, 0x3052cabffb0fb2d1, 0, 0)
         == (0x1a04b543a01f156b, 0xe6823ae4c3ff58a5, 0xa1677e19f37fd5da, 0x8e0cec959c715793)
    ensures Mix(0x41dd8960f0de029d, 0x1161e9566cec8636, 0xaef099868dce0a96, 0x69ea4685aa4d57b0, 0, 0)
         == (0xa2f8716e775c4877, 0xda0a61bcde4267ea, 0x22bdce6976b08c51, 0x7c45557fae0d4d89)
  {
  }

  lemma Mixes3()
    ensures Mix(0x60ed96aa7ad41725, 0xda0a61bcde4267ea, 0xa1677e19f37fd5da, 0xc804ebab11c99fa9, 0, 0)
         == (0x6b864497a655fb47, 0xc4b99c558f3684e9, 0xd2d2821a8aa43e4c, 0xe88b2359a43154a6)
    ensures Mix(0xe46a743c71800b9d, 0xb1dd230754d7bdee, 0x22bdce6976b08c51, 0x8e0cec959c715793, 0, 0)
         == (0xc1fd6110ffa75065, 0x065b83216e96ed93, 0xa898085d8e04f013, 0x2bb39bdbff08e7ec)
    ensures Mix(0x1a04b543a01f156b, 0x25a1422779e06d14, 0xf1de8696bec11bf1, 0x7c45557fae0d4d89, 0, 0)
         == (0x817908f78a142cfa, 0xf2d93929736e5b04, 0x38bf8d18c9a387f9, 0x8eee368bc701c9f4)
    ensures Mix(0xa2f8716e775c4877, 0xe6823ae4c3ff58a5, 0xa0ebd586a4a1d2c8, 0x716343f52fdd265e, 0, 0)
         == (0xce1577a72bc1ce7b, 0x2795f81cfb8f7633, 0xd750375d8da19646, 0x21ddda93f0e5d3d8)
    ensures Mix(0x6b864497a655fb47, 0x065b83216e96ed93, 0x38bf8d18c9a387f9, 0x21ddda93f0e5d3d8, 0, 0)
         == (0xbb2a77d3a8382351, 0x24192e49ebf54ea0, 0x5b44273e66b19d27, 0x3e7b5f234cd1f804)
    ensures Mix(0xc1fd6110ffa75065, 0xf2d93929736e5b04, 0xd750375d8da19646, 0xe88b2359a43154a6, 0, 0)
         == (0x45eb47971f23b103, 0x4f82c9401cb32d7a, 0xb6d5c9fca2579327, 0x086092cfb858437e)
    ensures Mix(0x817908f78a142cfa, 0x2795f81cfb8f7633, 0xd2d2821a8aa43e4c, 0x2bb39bdbff08e7ec, 0, 0x636261)
         == (0x98be297f6e45c684, 0x8ccd013726420dc4, 0xa9c9a8f17b1fc614, 0x5c4be2156dbeecf9)
    ensures Mix(0xce1577a72bc1ce7b, 0xc4b99c558f3684e9, 0xa898085d8e04f013, 0x8eee368bc701c9f4, 0, 0)
         == (0xa36077dee3370b89, 0x8a03c4cb7e97590a, 0x55908187977514a0, 0x2efede99ed4eff16)
  {
  }

  lemma Mixes4()
    ensures Mix(0xbb2a77d3a8382351, 0x8a03c4cb7e97590a, 0xa9c9a8f17b1fc614, 0x086092cfb858437e, 0, 0x636261)
         == (0x3e5bab618a5fbc72, 0x475dcc427f3fcd87, 0x5a8388e35cb33b75, 0x1222a0cc9444c711)
    ensures Mix(0x45eb47971f23b103, 0x24192e49ebf54ea0, 0x55908187977514a0, 0x5c4be2156dbeecf9, 0, 0)
         == (0x9be6aa793ad3a7c9, 0xbb2d4d7552ba222d, 0xec74922286e7b930, 0x303dfd40b9230c9c)
    ensures Mix(0x98be297f6e45c684, 0x4f82c9401cb32d7a, 0x5b44273e66b19d27, 0x2efede99ed4eff16, 0, 0)
         == (0xc5252a4d03f65b2f, 0xcdcfc26e59d1d349, 0x3a03d6ba54158e95, 0x7709a29326a5c548)
    ensures Mix(0xa36077dee3370b89, 0x8ccd013726420dc4, 0xb6d5c9fca2579327, 0x3e7b5f234cd1f804, 0, 0)
         == (0x1fe21186bd238be3, 0x8bc33bc025ae3c8e, 0xaa550590a17d6cd1, 0xadd65a4af0cfb375)
    ensures Mix(0x3e5bab618a5fbc72, 0xbb2d4d7552ba222d, 0x3a03d6ba54158e95, 0xadd65a4af0cfb375, 0, 0)
         == (0xc79c15b3d423b099, 0x6fe66467af88c0a9, 0x79e02eef20cdb1ae, 0x1205ea4a7859807d)
    ensures Mix(0x9be6aa793ad3a7c9, 0xcdcfc26e59d1d349, 0xaa550590a17d6cd1, 0x1222a0cc9444c711, 0, 0)
         == (0x2da2224e8da97556, 0x4eb0b76284c7aafb, 0x64b3eed7bb602f39, 0xb97d2d439e4df63d)
    ensures Mix(0xc5252a4d03f65b2f, 0x8bc33bc025ae3c8e, 0x5a8388e35cb33b75, 0x303dfd40b9230c9c, 0, 0)
         == (0x77d2b26df1c45c55, 0x299c8e725d954697, 0xb2240b59e6d567d3, 0xc718e755294c9111)
    ensures Mix(0x1fe21186bd238be3, 0x475dcc427f3fcd87, 0xec74922286e7b930, 0x7709a29326a5c548, 0, 0)
         == (0x8934eb09a3456052, 0x0f6d9eeed157da2a, 0x2643c2370e49ebfd, 0x1f0893f2772bb373)
  {
  }

  lemma Mixes5()
    ensures Mix(0xc79c15b3d423b099, 0x0f6d9eeed157da2a, 0xb2240b59e6d567d3, 0xb97d2d439e4df63d, 0, 0)
         == (0xf4e55384dc924147, 0xb7b58d9367a4043d, 0xc601582b84c4b49a, 0xd8a6cfd32f7ab2e6)
    ensures Mix(0x2da2224e8da97556, 0x6fe66467af88c0a9, 0x2643c2370e49ebfd, 0xc718e755294c9111, 0, 0)
         == (0xf015d00b613578c6, 0x02ca058bf3799684, 0x53e84b90ddbf8985, 0x1925e46b74e53ba5)
    ensures Mix(0x77d2b26df1c45c55, 0x4eb0b76284c7aafb, 0x79e02eef20cdb1ae, 0x1f0893f2772bb373, 0x636261, 0)
         == (0x648495058cae3d2f, 0xb9668b8ebf3fa717, 0x42b26ef24a2100f5, 0xc70d65404fc75525)
    ensures Mix(0x8934eb09a3456052, 0x299c8e725d954697, 0x64b3eed7bb602f39, 0x1205ea4a7859807d, 0, 0)
         == (0x54567270ac75c4ea, 0x292f756a3507a223, 0x35134241b118cf10, 0x57dc2cd554e40ca1)
    ensures Mix(0xf4e55384dc924147, 0x02ca058bf3799684, 0x42b26ef24a2100f5, 0x57dc2cd554e40ca1, 0, 0)
         == (0xe58f97d6385baee4, 0x9e472af0be3db3f6, 0xa2c3abbd37510ee2, 0xdb2161604cbc9828)
    ensures Mix(0xf015d00b613578c6, 0xb9668b8ebf3fa717, 0x35134241b118cf10, 0xd8a6cfd32f7ab2e6, 0, 0)
         == (0x7640aa9764da137a, 0x0f244c62ddf71788, 0xcb5668cc2a9f7859, 0x8733794f07ac1500)
    ensures Mix(0x648495058cae3d2f, 0x292f756a3507a223, 0xc601582b84c4b49a, 0x1925e46b74e53ba5, 0, 0)
         == (0xdeb4c7c23efe287e, 0x219828aa83880842, 0x41cca9073c8c4d0d, 0xc67a6be42335aa6f)
    ensures Mix(0x54567270ac75c4ea, 0xb7b58d9367a4043d, 0x53e84b90ddbf8985, 0xc70d65404fc75525, 0, 0)
         == (0x70f6f41c8783c9f6, 0x7127cd48c76a7708, 0x5c7912bc10df3b4b, 0xacb22b28681e4c82)
  {
  }

  lemma Mixes6()
    ensures Mix(0xe58f97d6385baee4, 0x7127cd48c76a7708, 0x41cca9073c8c4d0d, 0x8733794f07ac1500, 0, 0)
         == (0xd0d5bb6a10dae2b5, 0x860aa9f111072cea, 0x391b02b399972abc, 0xfee428bf8b86c15e)
    ensures Mix(0x7640aa9764da137a, 0x9e472af0be3db3f6, 0x5c7912bc10df3b4b, 0xc67a6be42335aa6f, 0, 0)
         == (0xf5d2174aff6cf2cd, 0x90ee681d04ce182a, 0xa93d75cc5e322748, 0x4ca1f5f07a552d91)
    ensures Mix(0xdeb4c7c23efe287e, 0x0f244c62ddf71788, 0xa2c3abbd37510ee2, 0xacb22b28681e4c82, 0, 0)
         == (0x39337b3da7e963ab, 0x7e1ec202f5042fa8, 0x74550619f0763471, 0x5ca64dd877b9e682)
    ensures Mix(0x70f6f41c8783c9f6, 0x219828aa83880842, 0xcb5668cc2a9f7859, 0xdb2161604cbc9828, 0, 0)
         == (0x588d5ef9a0a6492f, 0x04d72048395b53ff, 0x4795d2168937df08, 0x34881f3a14e9e908)
    ensures Mix(0xd0d5bb6a10dae2b5, 0x90ee681d04ce182a, 0x74550619f0763471, 0x34881f3a14e9e908, 0x636261, 0)
         == (0x6e2d286eeadedc81, 0xb63c479a6a769f02, 0x5777272ae1e930c0, 0xe03c6cc89c26bf92)
    ensures Mix(0xf5d2174aff6cf2cd, 0x7e1ec202f5042fa8, 0x4795d2168937df08, 0xfee428bf8b86c15e, 0, 0)
         == (0xbcf02c0787e86358, 0x258e55e0ec1f362a, 0x5a387849e578dbf6, 0x92aac307cf2c0afc)
    ensures Mix(0x39337b3da7e963ab, 0x04d72048395b53ff, 0x391b02b399972abc, 0x4ca1f5f07a552d91, 0, 0)
         == (0x57d56a56dd015edf, 0x3a3b4ec60e19dfdc, 0x04d769b3fcb048db, 0x30aaccc4f06dafaa)
    ensures Mix(0x588d5ef9a0a6492f, 0x860aa9f111072cea, 0xa93d75cc5e322748, 0x5ca64dd877b9e682, 0, 0)
         == (0x55d899d40a5d0d0a, 0x819415b56220c459, 0xb78a9a33e9bff4dd, 0x483893cc094f8863)
  {
  }

  lemma Mixes7()
    ensures Mix(0x6e2d286eeadedc81, 0x819415b56220c459, 0x04d769b3fcb048db, 0x92aac307cf2c0afc, 0, 0)
         == (0x2c42e52d8c060ff2, 0x8ffac8c5ec5cb0e6, 0x7b7cc36bc928376b, 0xf2d1af914f0bf16d)
    ensures Mix(0xbcf02c0787e86358, 0xb63c479a6a769f02, 0xb78a9a33e9bff4dd, 0x30aaccc4f06dafaa, 0, 0)
         == (0xa357b3b1736ec0a1, 0x1355530d9510b6da, 0x3981e9894b87e52a, 0x7fc4a1651e4130e8)
    ensures Mix(0x57d56a56dd015edf, 0x258e55e0ec1f362a, 0x5777272ae1e930c0, 0x483893cc094f8863, 0, 0)
         == (0xd916516a31320b04, 0x56af9e7816abf9be, 0x70e55e0e63448924, 0x58ff19794c000469)
    ensures Mix(0x55d899d40a5d0d0a, 0x3a3b4ec60e19dfdc, 0x5a387849e578dbf6, 0xe03c6cc89c26bf92, 0, 0)
         == (0x41d37d7ecbfc6541, 0x1c460b4a606cc880, 0xbf9c914183b31c1b, 0xe113c5832e0abbd3)
    ensures Mix(0x2c42e52d8c060ff2, 0x1355530d9510b6da, 0x70e55e0e63448924, 0xe113c5832e0abbd3, 0, 0x636261)
         == (0xffc83ece76024d01, 0xe1179523a2541963, 0x30bbcc0285a22f65, 0xb0b9f0d443d1a889)
    ensures Mix(0xa357b3b1736ec0a1, 0x56af9e7816abf9be, 0xbf9c914183b31c1b, 0xf2d1af914f0bf16d, 0, 0)
         == (0x1be7bffb8c5cc5f9, 0x3a1fad7106232b8f, 0xbcefbb6a81539e5d, 0x3841def6f4c9848a)
    ensures Mix(0xd916516a31320b04, 0x1c460b4a606cc880, 0x7b7cc36bc928376b, 0x7fc4a1651e4130e8, 0, 0)
         == (0xa35a18cbac4c65b7, 0x1c7ede92ab8b9c46, 0xa3c2d35e4f685c10, 0x98662c85fba726d4)
    ensures Mix(0x41d37d7ecbfc6541, 0x8ffac8c5ec5cb0e6, 0x3981e9894b87e52a, 0x58ff19794c000469, 0, 0)
         == (0xb7c2c7e6d88c285f, 0x81937da314a50838, 0xa53d3f73aa619624, 0x7762439bd5a851bd)
  {
  }

  lemma Mixes8()
    ensures Mix(0xffc83ece76024d01, 0x81937da314a50838, 0xa3c2d35e4f685c10, 0x3841def6f4c9848a, 0, 0)
         == (0xa9126c152d800655, 0x4165a65ac9e3c45b, 0x87047c8ec6295331, 0x64d2d77cbda6949a)
    ensures Mix(0x1be7bffb8c5cc5f9, 0xe1179523a2541963, 0xa53d3f73aa619624, 0x98662c85fba726d4, 0, 0)
         == (0xac1632ba715ebf08, 0xdfe2d8cd3101f453, 0x40e7b1fdda2d2585, 0xc6927901cb3215c7)
    ensures Mix(0xa35a18cbac4c65b7, 0x3a1fad7106232b8f, 0x30bbcc0285a22f65, 0x7762439bd5a851bd, 0, 0)
         == (0x7c1849df4e91206f, 0x41aa56fe49862d7f, 0x3e4ba8ddb8e29996, 0xa5c81bdf8924e48a)
    ensures Mix(0xb7c2c7e6d88c285f, 0x1c7ede92ab8b9c46, 0xbcefbb6a81539e5d, 0xb0b9f0d443d1a889, 0x636261, 0)
         == (0x94aaf312690f9253, 0x13e3a2c50cfad099, 0x49989dfa62e90301, 0xc4fe53007c9d0df7)
    ensures Mix(0xa9126c152d800655, 0xdfe2d8cd3101f453, 0x3e4ba8ddb8e29996, 0xc4fe53007c9d0df7, 0, 0)
         == (0x753a70a1e8faeadd, 0x63c5b9b80d294cb9, 0x5da7f7638cec5669, 0xfd3f572687fea4f1)
    ensures Mix(0xac1632ba715ebf08, 0x41aa56fe49862d7f, 0x49989dfa62e90301, 0x64d2d77cbda6949a, 0, 0)
         == (0x6b0d43ca2c25d629, 0x490870ecad27debd, 0xd9c8826727d306fc, 0x88ed6c4f3bd7a537)
    ensures Mix(0x7c1849df4e91206f, 0x13e3a2c50cfad099, 0x87047c8ec6295331, 0xc6927901cb3215c7, 0, 0)
         == (0xf8343ba8b94f8c0b, 0xb2a90ddf667287fe, 0x316cc9ebeefad8fc, 0x19ae688ddf67f026)
    ensures Mix(0x94aaf312690f9253, 0x4165a65ac9e3c45b, 0x40e7b1fdda2d2585, 0xa5c81bdf8924e48a, 0, 0)
         == (0xbc7d062b0db5cf35, 0x58540ee1b1aebc47, 0x4a466bcd021526a4, 0x4d8707aab40f7e6d)
  {
  }

  lemma Mixes9()
    ensures Mix(0x753a70a1e8faeadd, 0x58540ee1b1aebc47, 0x316cc9ebeefad8fc, 0x88ed6c4f3bd7a537, 0, 0)
         == (0xc0df0f0e596ec5a9, 0xb4014455ff7c2ca0, 0xa9502da0417b08d5, 0xd66561a10d1d1c0d)
    ensures Mix(0x6b0d43ca2c25d629, 0x63c5b9b80d294cb9, 0x4a466bcd021526a4, 0x19ae688ddf67f026, 0, 0)
         == (0x87ca07d5e3d64cb6, 0x65bf544e084bb313, 0x0a28a074aea2f05d, 0xd9b961e2d51134aa)
    ensures Mix(0xf8343ba8b94f8c0b, 0x490870ecad27debd, 0x5da7f7638cec5669, 0x4d8707aab40f7e6d, 0, 0)
         == (0xd11bc20e8ef44efc, 0x3478342ab05ecf87, 0x15e30f6c705383f7, 0xe5c30363d6ab824f)
    ensures Mix(0xbc7d062b0db5cf35, 0xb2a90ddf667287fe, 0xd9c8826727d306fc, 0xfd3f572687fea4f1, 0, 0)
         == (0x0df3ea89aaa44e12, 0x88274463ca98e874, 0xdade744ed33782e5, 0x0d3efe25194b38bd)
    ensures Mix(0xc0df0f0e596ec5a9, 0x65bf544e084bb313, 0x15e30f6c705383f7, 0x0d3efe25194b38bd, 0, 0)
         == (0xe630c747ccd59c4f, 0x5f311b88904056ec, 0x900aee2f233b08e5, 0x01369ec18746e775)
    ensures Mix(0x87ca07d5e3d64cb6, 0x3478342ab05ecf87, 0xdade744ed33782e5, 0xd66561a10d1d1c0d, 0, 0)
         == (0xbc713d41127571ca, 0x40bd313009201aab, 0xa07199d87ad058d8, 0x2c6b25593d717852)
    ensures Mix(0xd11bc20e8ef44efc, 0x88274463ca98e874, 0xa9502da0417b08d5, 0xd9b961e2d51134aa, 0, 0)
         == (0x46db183025025078, 0x0099d4f82a2a1eab, 0x6dd4fbc1de60165d, 0x37e8ca471beaa5f8)
    ensures Mix(0x0df3ea89aaa44e12, 0xb4014455ff7c2ca0, 0x0a28a074aea2f05d, 0xe5c30363d6ab824f, 0, 0x636261)
         == (0x6727e81260610140, 0x2d04185eac2a8cba, 0xb3b0b51de3c86270, 0x2cfc1bac10ef4457)
  {
  }

  lemma Mixes10()
    ensures Mix(0xe630c747ccd59c4f, 0x2d04185eac2a8cba, 0x6dd4fbc1de60165d, 0x2c6b25593d717852, 0x636261, 0)
         == (0xfdd2c6435d5a301b, 0x2ca29c4d619bafa1, 0x7ccca8ba533b7361, 0xcae4b9c0357b6205)
    ensures Mix(0xbc713d41127571ca, 0x5f311b88904056ec, 0xb3b0b51de3c86270, 0x37e8ca471beaa5f8, 0, 0)
         == (0x6e446afbc3efad36, 0xfcd5d76a6de20047, 0xacc8f98717c8e4a3, 0x3fb8d71b07b5efa5)
    ensures Mix(0x46db183025025078, 0x40bd313009201aab, 0x900aee2f233b08e5, 0x2cfc1bac10ef4457, 0, 0)
         == (0x46d963ee934efeea, 0x8b7f1e6cfc2a0039, 0x7afe95b81b3993db, 0xac2678144c9a382a)
    ensures Mix(0x6727e81260610140, 0x0099d4f82a2a1eab, 0xa07199d87ad058d8, 0x01369ec18746e775, 0, 0)
         == (0x5523c5b930d1aeb6, 0xadbdc7977150b805, 0x3bbceb651eeed2c9, 0x8d7d58ee3d275626)
    ensures Mix(0xfdd2c6435d5a301b, 0xfcd5d76a6de20047, 0x7afe95b81b3993db, 0x8d7d58ee3d275626, 0, 0)
         == (0xe801f73b9768c760, 0x3cc88735d1475e4b, 0x733d1a17248f39db, 0x02231e1a917fe0bd)
    ensures Mix(0x6e446afbc3efad36, 0x8b7f1e6cfc2a0039, 0x3bbceb651eeed2c9, 0xcae4b9c0357b6205, 0, 0)
         == (0x35c6d22320be511d, 0x5dac67921ff76949, 0x92d57b736f5f170a, 0x61b5c0a41d491399)
    ensures Mix(0x46d963ee934efeea, 0xadbdc7977150b805, 0x7ccca8ba533b7361, 0x3fb8d71b07b5efa5, 0, 0)
         == (0x306f27584f65495e, 0x1cdb9d31ad70cc4e, 0x35ba354a9c7df448, 0xb5c333457e12844a)
    ensures Mix(0x5523c5b930d1aeb6, 0x2ca29c4d619bafa1, 0xacc8f98717c8e4a3, 0xac2678144c9a382a, 0, 0)
         == (0xb51776adf569a77b, 0xf4f1be86690b3c34, 0x4929cbe45679d73e, 0xbd696be010d0d889)
  {
  }

  lemma Mixes11()
    ensures Mix(0xe801f73b9768c760, 0xf4f1be86690b3c34, 0x35ba354a9c7df448, 0x61b5c0a41d491399, 0, 0)
         == (0xac495068076fe1c4, 0x5198d8d539a3fbce, 0xe799f6cc9a2a23d7, 0x94a2b1744065ba29)
    ensures Mix(0x35c6d22320be511d, 0x3cc88735d1475e4b, 0x4929cbe45679d73e, 0xb5c333457e12844a, 0, 0)
         == (0xf3ae6a427a75e234, 0xb8eacc53aead98b1, 0x5d6a76c05f26fe94, 0x88297fb94160bd39)
    ensures Mix(0x306f27584f65495e, 0x5dac67921ff76949, 0x733d1a17248f39db, 0xbd696be010d0d889, 0, 0)
         == (0x83933b99d54089ee, 0x55b2599798b3a4a1, 0x5fae8064a9ba0517, 0x6ce4fc1f51b7e632)
    ensures Mix(0xb51776adf569a77b, 0x1cdb9d31ad70cc4e, 0x92d57b736f5f170a, 0x02231e1a917fe0bd, 0, 0)
         == (0x31db95ba436e4db7, 0xb20b2179d2dcd8c6, 0x06ed116649fdb58d, 0x4072027e06ce90be)
    ensures Mix(0xac495068076fe1c4, 0xb8eacc53aead98b1, 0x5fae8064a9ba0517, 0x4072027e06ce90be, 0, 0)
         == (0x12ef8a641ec4f6d6, 0xaa5ac1888e10467e, 0xf8960d6c2faf5f5e, 0xe813a23c60af3b82)
    ensures Mix(0xf3ae6a427a75e234, 0x55b2599798b3a4a1, 0x06ed116649fdb58d, 0x94a2b1744065ba29, 0x636261, 0)
         == (0xbced5de977c9faf5, 0x217d930aa51787f3, 0xe332538a36b6d246, 0x885bef040ef6aa0b)
    ensures Mix(0x83933b99d54089ee, 0xb20b2179d2dcd8c6, 0xe799f6cc9a2a23d7, 0x88297fb94160bd39, 0, 0)
         == (0x733ca476c5148639, 0x906a6ff19e573942, 0x75ab709bd3dcbf24, 0xa4939a417bfb78a3)
    ensures Mix(0x31db95ba436e4db7, 0x5198d8d539a3fbce, 0x5d6a76c05f26fe94, 0x6ce4fc1f51b7e632, 0, 0)
         == (0x97df596b0610f6fc, 0xf42c16519ad5afa7, 0xee7ce1f345947aa4, 0x646cbb7af6dce980)
  {
  }

  lemma NoRounds(v: seq<bv64>, m: seq<bv64>)
    requires |v| == |m| == 16
    ensures Rounds(v, m, 0) == v
  {
  }

  lemma OneMore(v: seq<bv64>, m: seq<bv64>, n: nat)
    requires |v| == |m| == 16 && n < 12
    ensures Rounds(v, m, n + 1) == Round(Rounds(v, m, n), m, Sigma(n % 10))
  {
    hide Round, Sigma;
  }

  // The number of rounds is a variable here, so that the rounds are not all unfolded at once.

  lemma Round1(n: nat)
    requires n == 1
    ensures Rounds(V0, ABC, n) == V1
  {
    hide Mix, Round, Rounds;
    NoRounds(V0, ABC);
    Mixes0();
    RoundIs(V0, ABC, Sigma(0), V1);
    OneMore(V0, ABC, 0);
  }

  lemma Round2(n: nat)
    requires n == 2
    ensures Rounds(V0, ABC, n) == V2
  {
    hide Mix, Round, Rounds;
    Round1(1);
    Mixes1();
    RoundIs(V1, ABC, Sigma(1), V2);
    OneMore(V0, ABC, 1);
  }

  lemma Round3(n: nat)
    requires n == 3
    ensures Rounds(V0, ABC, n) == V3
  {
    hide Mix, Round, Rounds;
    Round2(2);
    Mixes2();
    RoundIs(V2, ABC, Sigma(2), V3);
    OneMore(V0, ABC, 2);
  }

  lemma Round4(n: nat)
    requires n == 4
    ensures Rounds(V0, ABC, n) == V4
  {
    hide Mix, Round, Rounds;
    Round3(3);
    Mixes3();
    RoundIs(V3, ABC, Sigma(3), V4);
    OneMore(V0, ABC, 3);
  }

  lemma Round5(n: nat)
    requires n == 5
    ensures Rounds(V0, ABC, n) == V5
  {
    hide Mix, Round, Rounds;
    Round4(4);
    Mixes4();
    RoundIs(V4, ABC, Sigma(4), V5);
    OneMore(V0, ABC, 4);
  }

  lemma Round6(n: nat)
    requires n == 6
    ensures Rounds(V0, ABC, n) == V6
  {
    hide Mix, Round, Rounds;
    Round5(5);
    Mixes5();
    RoundIs(V5, ABC, Sigma(5), V6);
    OneMore(V0, ABC, 5);
  }

  lemma Round7(n: nat)
    requires n == 7
    ensures Rounds(V0, ABC, n) == V7
  {
    hide Mix, Round, Rounds;
    Round6(6);
    Mixes6();
    RoundIs(V6, ABC, Sigma(6), V7);
    OneMore(V0, ABC, 6);
  }

  lemma Round8(n: nat)
    requires n == 8
    ensures Rounds(V0, ABC, n) == V8
  {
    hide Mix, Round, Rounds;
    Round7(7);
    Mixes7();
    RoundIs(V7, ABC, Sigma(7), V8);
    OneMore(V0, ABC, 7);
  }

  lemma Round9(n: nat)
    requires n == 9
    ensures Rounds(V0, ABC, n) == V9
  {
    hide Mix, Round, Rounds;
    Round8(8);
    Mixes8();
    RoundIs(V8, ABC, Sigma(8), V9);
    OneMore(V0, ABC, 8);
  }

  lemma Round10(n: nat)
    requires n == 10
    ensures Rounds(V0, ABC, n) == V10
  {
    hide Mix, Round, Rounds;
    Round9(9);
    Mixes9();
    RoundIs(V9, ABC, Sigma(9), V10);
    OneMore(V0, ABC, 9);
  }

  lemma Round11(n: nat)
    requires n == 11
    ensures Rounds(V0, ABC, n) == V11
  {
    hide Mix, Round, Rounds;
    Round10(10);
    Mixes10();
    RoundIs(V10, ABC, Sigma(0), V11);
    OneMore(V0, ABC, 10);
  }

  lemma Round12(n: nat)
    requires n == 12
    ensures Rounds(V0, ABC, n) == V12
  {
    hide Mix, Round, Rounds;
    Round11(11);
    Mixes11();
    RoundIs(V11, ABC, Sigma(1), V12);
    OneMore(V0, ABC, 11);
  }

  lemma StartIs()
    ensures WorkVector(InitialState(64, 0), 3, true) == V0
  {
    hide Byte, Xor, Word64;
    BytesOfSizes();
    CounterWords();
    StartWords();
  }

  lemma CounterWords()
    ensures 3 % TWO64 == 3 && 3 / TWO64 == 0 && Word64(3) == 3 && Word64(0) == 0
  {
  }

  lemma StartWords()
    ensures Xor(0x6a09e667f3bcc908, 0x0101_0000 ^ (0 << 8) ^ 64) == 0x6a09e667f2bdc948
    ensures Xor(0x510e527fade682d1, 3) == 0x510e527fade682d2 && Xor(0x9b05688c2b3e6c1f, 0) == 0x9b05688c2b3e6c1f
    ensures Xor(0x1f83d9abfb41bd6b, 0xFFFF_FFFF_FFFF_FFFF) == 0xe07c265404be4294
  {
  }

  lemma BytesOfSizes()
    ensures Byte(64) == 64 && Byte(0) == 0
  {
    ByteOfValue(64);
    ByteOfValue(0);
  }

  lemma MessageIs()
    ensures Message(ZeroPadded([0x61, 0x62, 0x63])) == ABC
  {
    hide Load64L;
    var block := ZeroPadded([0x61, 0x62, 0x63]);
    assert block[0..8] == [0x61, 0x62, 0x63, 0, 0, 0, 0, 0];
    FirstWords();
    forall i | 1 <= i < 16
      ensures Message(block)[i] == 0 == ABC[i]
    {
      assert block[8 * i..8 * i + 8] == [0, 0, 0, 0, 0, 0, 0, 0];
    }
  }

  lemma FirstWords()
    ensures Load64L([0x61, 0x62, 0x63, 0, 0, 0, 0, 0]) == 0x636261 && Load64L([0, 0, 0, 0, 0, 0, 0, 0]) == 0
  {
  }

  /** The chaining value at the end. */
  const H: seq<bv64> := [
    0x0d4d1c983fa580ba, 0xe9f6129fb697276a, 0xb7c45a68142f214c, 0xd1a2ffdb6fbb124b,
    0x2d79ab2a39c5877d, 0x95cc3345ded552c2, 0x5a92f1dba88ad318, 0x239900d4ed8623b9]

  lemma Folds()
    ensures Xor(Xor(0x6a09e667f2bdc948, 0x12ef8a641ec4f6d6), 0x75ab709bd3dcbf24) == 0x0d4d1c983fa580ba
    ensures Xor(Xor(0xbb67ae8584caa73b, 0xbced5de977c9faf5), 0xee7ce1f345947aa4) == 0xe9f6129fb697276a
    ensures Xor(Xor(0x3c6ef372fe94f82b, 0x733ca476c5148639), 0xf8960d6c2faf5f5e) == 0xb7c45a68142f214c
    ensures Xor(Xor(0xa54ff53a5f1d36f1, 0x97df596b0610f6fc), 0xe332538a36b6d246) == 0xd1a2ffdb6fbb124b
    ensures Xor(Xor(0x510e527fade682d1, 0xf42c16519ad5afa7), 0x885bef040ef6aa0b) == 0x2d79ab2a39c5877d
    ensures Xor(Xor(0x9b05688c2b3e6c1f, 0xaa5ac1888e10467e), 0xa4939a417bfb78a3) == 0x95cc3345ded552c2
    ensures Xor(Xor(0x1f83d9abfb41bd6b, 0x217d930aa51787f3), 0x646cbb7af6dce980) == 0x5a92f1dba88ad318
    ensures Xor(Xor(0x5be0cd19137e2179, 0x906a6ff19e573942), 0xe813a23c60af3b82) == 0x239900d4ed8623b9
  {
  }

  lemma FoldedWords(i: nat)
    requires i < 8
    ensures Xor(Xor(V0[i], V12[i]), V12[i + 8]) == H[i]
  {
    hide Xor;
    Folds();
  }

  lemma FoldIs(h: seq<bv64>, v: seq<bv64>)
    requires |h| == 8 && |v| == 16 && h == V0[..8] && v == V12
    ensures seq(8, i requires 0 <= i < 8 => Xor(Xor(h[i], v[i]), v[i + 8])) == H
  {
    hide Xor;
    forall i | 0 <= i < 8
      ensures Xor(Xor(h[i], v[i]), v[i + 8]) == H[i]
    {
      FoldedWords(i);
    }
  }

  lemma FinalStateIs()
    ensures FinalState(InitialState(64, 0), [0x61, 0x62, 0x63]) == H
  {
    hide Rounds, InitialState, WorkVector, Message, ZeroPadded, Xor;
    var abc, h := [0x61, 0x62, 0x63], InitialState(64, 0);
    assert abc[BLOCKBYTES * 0..] == abc;
    StartIs();
    FirstEight(h, 3, true);
    MessageIs();
    Round12(12);
    FoldIs(h, V12);
  }

  lemma FirstEight(h: seq<bv64>, t: nat, last: bool)
    requires |h| == 8
    ensures WorkVector(h, t, last)[..8] == h
  {
    hide Xor, Word64;
  }

  lemma DigestBytes()
    ensures Store64L(0x0d4d1c983fa580ba) == [0xba, 0x80, 0xa5, 0x3f, 0x98, 0x1c, 0x4d, 0x0d]
    ensures Store64L(0xe9f6129fb697276a) == [0x6a, 0x27, 0x97, 0xb6, 0x9f, 0x12, 0xf6, 0xe9]
    ensures Store64L(0xb7c45a68142f214c) == [0x4c, 0x21, 0x2f, 0x14, 0x68, 0x5a, 0xc4, 0xb7]
    ensures Store64L(0xd1a2ffdb6fbb124b) == [0x4b, 0x12, 0xbb, 0x6f, 0xdb, 0xff, 0xa2, 0xd1]
    ensures Store64L(0x2d79ab2a39c5877d) == [0x7d, 0x87, 0xc5, 0x39, 0x2a, 0xab, 0x79, 0x2d]
    ensures Store64L(0x95cc3345ded552c2) == [0xc2, 0x52, 0xd5, 0xde, 0x45, 0x33, 0xcc, 0x95]
    ensures Store64L(0x5a92f1dba88ad318) == [0x18, 0xd3, 0x8a, 0xa8, 0xdb, 0xf1, 0x92, 0x5a]
    ensures Store64L(0x239900d4ed8623b9) == [0xb9, 0x23, 0x86, 0xed, 0xd4, 0x00, 0x99, 0x23]
  {
  }

  /** The digest of "abc". */
  lemma DigestOfAbc()
    ensures Digest(64, [], [0x61, 0x62, 0x63]) ==
      [0xba, 0x80, 0xa5, 0x3f, 0x98, 0x1c, 0x4d, 0x0d] +
      [0x6a, 0x27, 0x97, 0xb6, 0x9f, 0x12, 0xf6, 0xe9] +
      [0x4c, 0x21, 0x2f, 0x14, 0x68, 0x5a, 0xc4, 0xb7] +
      [0x4b, 0x12, 0xbb, 0x6f, 0xdb, 0xff, 0xa2, 0xd1] +
      [0x7d, 0x87, 0xc5, 0x39, 0x2a, 0xab, 0x79, 0x2d] +
      [0xc2, 0x52, 0xd5, 0xde, 0x45, 0x33, 0xcc, 0x95] +
      [0x18, 0xd3, 0x8a, 0xa8, 0xdb, 0xf1, 0x92, 0x5a] +
      [0xb9, 0x23, 0x86, 0xed, 0xd4, 0x00, 0x99, 0x23]
  {
    hide FinalState, InitialState, Store64L;
    FinalStateIs();
    DigestBytes();
    var d := OutputBytes(H);
    assert d[..64] == d;
  }
}
